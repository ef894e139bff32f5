/**
  The append only file as a protocol between the server, its rewrite child, and system calls
  that may fail: every step of the server is an event, and a run is any sequence of events.
 */
module AofProtocol {
  import opened Decimal
  import opened Resp
  import opened Text
  import opened Store
  import opened AofFeed
  import opened AofSkew
  import opened AofRewrite
  import opened AofLoad
  import opened AofFlush
  import opened AofDump

  datatype AofState = Off | On | WaitRewrite

  datatype Phase = Working | Asked | Finished

  /** The rewrite child: base is the text of the snapshot it writes, diff what it received from
      the parent so far. The rest is history: all bytes fed since the fork, whether one of the
      commands fed had its time to live shifted by the feeder's clock reading, and by how much the
      expires are off that the new file will replay to. */
  datatype Child = Child(base: Bytes, diff: Bytes, phase: Phase, fed: Bytes, drifted: bool, skew: Skew)

  /** The server. blocks is the content of the rewrite buffer, pipe what is in flight to the
      child. The rest but the last is history: statFailed, that the last switch, or the load at the
      start, could not stat the file; damaged, that a short write was undone with a wrong size since
      then; drifted, that a time to live was fed shifted since the file was begun; skew, by how much
      the expires are off that file and buffer replay to. */
  datatype Server = Server(
    ds: Dataset,
    inMulti: bool,
    aofState: AofState,
    out: Output,
    selected: int,
    child: Option<Child>,
    blocks: Bytes,
    pipe: Bytes,
    stopSending: bool,
    ackSent: bool,
    statFailed: bool,
    damaged: bool,
    drifted: bool,
    skew: Skew,
    dead: bool)

  datatype Event =
    | Call(db: nat, argv: Argv, now: int, fedAt: int, force: bool)
    | Marker(db: nat, argv: Argv)
    | FlushOut(force: bool, env: Env)
    | Fork(dump: Dump)
    | ParentSend(k: nat)
    | ChildRead(k: nat)
    | ChildAsk
    | ParentAck(readOk: bool, ackOk: bool)
    | ChildFinish
    | ChildExit(success: bool, openOk: bool, writeOk: bool, renameOk: bool, statOk: bool)
    | KillChild
    | StopAof(env: Env)
    | StartAof(openOk: bool, otherChild: bool, forkOk: bool, dump: Dump)

  // ----- steps --------------------------------------------------------------

  /** feedAppendOnlyFile, once the commands to write are known; skew and childSkew are what the
      expires are off by afterwards. */
  function Feed(s: Server, db: nat, cmds: seq<Argv>, drift: bool, skew: Skew, childSkew: Skew): Server {
    var bytes := EncodeAll(Fed(s.selected, db, cmds));
    s.(selected := db,
       out := if s.aofState == On then s.out.(buf := s.out.buf + bytes) else s.out,
       drifted := s.drifted || (s.aofState == On && drift),
       skew := if s.aofState == On then skew else s.skew,
       blocks := if s.child.Some? then s.blocks + bytes else s.blocks,
       child := FeedChild(s.child, bytes, drift, childSkew))
  }

  function FeedChild(child: Option<Child>, bytes: Bytes, drift: bool, skew: Skew): Option<Child> {
    if child.None? then None
    else
      var c := child.value;
      Some(c.(fed := c.fed + bytes, drifted := c.drifted || drift, skew := skew))
  }

  function ChildSkew(s: Server): Skew {
    if s.child.Some? then s.child.value.skew else map[]
  }

  /** A client command: it runs at clock reading now, and if it has to be propagated it is fed at
      clock reading fedAt. */
  function DoCall(eng: Engine, s: Server, db: nat, argv: Argv, now: int, fedAt: int, force: bool): Server
    requires argv != []
  {
    var r := Execute(eng, false, now, force, s.ds, db, argv);
    if !r.dirty then s
    else
      var s1 := s.(ds := r.ds);
      if s.aofState == Off then s1
      else
        var cmds := Translate(eng, r.argv, fedAt);
        if cmds.None? then s1.(dead := true)
        else Feed(s1, db, cmds.value, Drifts(eng, r.argv, now, fedAt),
                  NewSkew(eng, s.ds, r.ds, db, r.argv, s.skew, now, fedAt),
                  NewSkew(eng, s.ds, r.ds, db, r.argv, ChildSkew(s), now, fedAt))
  }

  /** MULTI and EXEC, propagated around the commands of a transaction. */
  function DoMarker(eng: Engine, s: Server, db: nat, argv: Argv): Server
    requires argv != []
  {
    var s1 := s.(inMulti := eng.kindOf(argv[0]) == MultiCmd);
    if s.aofState == Off then s1 else Feed(s1, db, [argv], false, s.skew, ChildSkew(s))
  }

  /** aofRewriteBufferReset, aofClosePipes and forgetting the child. */
  function Cleanup(s: Server): Server {
    s.(child := None, blocks := "", pipe := "", stopSending := false, ackSent := false)
  }

  predicate GoodDump(eng: Engine, dump: Dump, n: nat) {
    n >= 1 && DumpOk(eng, dump) && NoEmptyAggregate(dump)
  }

  /** The parent's side of a successful fork; the child sees the dataset of this moment. */
  function DoFork(eng: Engine, s: Server, dump: Dump, n: nat): Server
    requires GoodDump(eng, dump, n)
  {
    s.(child := Some(Child(EncodeAll(RewriteCommands(eng, dump, n)), "", Working, "", false, map[])),
       pipe := "", stopSending := false, ackSent := false, selected := -1)
  }

  function DoFlush(s: Server, force: bool, env: Env): Server {
    var f := Flush(s.out, force, env);
    s.(out := f.out, damaged := s.damaged || BadUndo(s.out, force, env), dead := f.exited)
  }

  /** The file that a successful rewrite leaves. */
  function NewFile(s: Server): Bytes
    requires s.child.Some?
  {
    s.child.value.base + s.child.value.diff + s.blocks
  }

  /** The output fields after the switch; with the log off only the file changes. */
  function SwitchedOut(s: Server, statOk: bool): Output
    requires s.child.Some?
  {
    var size := if statOk then |NewFile(s)| else s.out.size;
    if s.aofState == Off then s.out.(file := NewFile(s))
    else s.out.(file := NewFile(s), size := size, fsyncOffset := size, buf := "")
  }

  /** backgroundRewriteDoneHandler when the new file could be written and renamed. */
  function DoSwitch(s: Server, statOk: bool): Server
    requires s.child.Some?
  {
    var off, c := s.aofState == Off, s.child.value;
    s.(out := SwitchedOut(s, statOk),
       selected := if off then s.selected else -1,
       aofState := if off then Off else On,
       statFailed := if off then s.statFailed else !statOk,
       damaged := off && s.damaged,
       drifted := if off then s.drifted else c.drifted,
       skew := if off then s.skew else c.skew)
  }

  /** One event; an event that is not enabled does nothing. */
  ghost function Next(eng: Engine, n: nat, s: Server, e: Event): Server
    requires n >= 1
  {
    if s.dead then s
    else
      match e
      case Call(db, argv, now, fedAt, force) =>
        if argv != [] && db < eng.dbnum then DoCall(eng, s, db, argv, now, fedAt, force) else s
      case Marker(db, argv) =>
        if argv != [] && db < eng.dbnum && eng.kindOf(argv[0]) in {MultiCmd, ExecCmd}
        then DoMarker(eng, s, db, argv) else s
      case FlushOut(force, env) => if s.aofState != Off then DoFlush(s, force, env) else s
      case Fork(dump) =>
        if s.child.None? && GoodDump(eng, dump, n) && Enumerates(eng, dump, s.ds) then DoFork(eng, s, dump, n) else s
      case ParentSend(k) =>
        if s.child.Some? && !s.stopSending && k <= |s.blocks|
        then s.(pipe := s.pipe + s.blocks[..k], blocks := s.blocks[k..]) else s
      case ChildRead(k) =>
        if s.child.Some? && s.child.value.phase == Working && k <= |s.pipe|
        then s.(child := Some(s.child.value.(diff := s.child.value.diff + s.pipe[..k])), pipe := s.pipe[k..]) else s
      case ChildAsk =>
        if s.child.Some? && s.child.value.phase == Working
        then s.(child := Some(s.child.value.(phase := Asked))) else s
      case ParentAck(readOk, ackOk) =>
        if s.child.Some? && s.child.value.phase == Asked && !s.stopSending && readOk
        then s.(stopSending := true, ackSent := ackOk) else s
      case ChildFinish =>
        if s.child.Some? && s.child.value.phase == Asked && s.ackSent
        then s.(child := Some(s.child.value.(phase := Finished, diff := s.child.value.diff + s.pipe)), pipe := "") else s
      case ChildExit(success, openOk, writeOk, renameOk, statOk) =>
        if s.child.None? then s
        else if success && s.child.value.phase != Finished then s
        else if success && openOk && writeOk && renameOk then Cleanup(DoSwitch(s, statOk))
        else Cleanup(s)
      case KillChild => Cleanup(s)
      case StopAof(env) =>
        if s.aofState == Off then s
        else
          var f := DoFlush(s, true, env);
          if f.dead then f else Cleanup(f.(aofState := Off, selected := -1))
      case StartAof(openOk, otherChild, forkOk, dump) =>
        if s.aofState != Off || !openOk then s
        else if otherChild && s.child.None? then s.(aofState := WaitRewrite)
        else if forkOk && GoodDump(eng, dump, n) && Enumerates(eng, dump, s.ds)
        then DoFork(eng, Cleanup(s), dump, n).(aofState := WaitRewrite)
        else Cleanup(s)
  }

  ghost function Run(eng: Engine, n: nat, s: Server, events: seq<Event>): Server
    requires n >= 1
    decreases |events|
  {
    if events == [] then s else Run(eng, n, Next(eng, n, s, events[0]), events[1..])
  }

  lemma RunNoEvents(eng: Engine, n: nat, s: Server)
    requires n >= 1
    ensures Run(eng, n, s, []) == s
  {
  }

  lemma RunTo(eng: Engine, n: nat, s: Server, es: seq<Event>, i: nat, s': Server)
    requires n >= 1 && i < |es| && Next(eng, n, s, es[i]) == s'
    ensures Run(eng, n, s, es[i..]) == Run(eng, n, s', es[i + 1..])
  {
    hide Next;
    assert es[i..][1..] == es[i + 1..];
  }

  // ----- the invariant ------------------------------------------------------

  predicate GoodEngine(eng: Engine) {
    KnowsNames(eng) && 0 < eng.dbnum <= LLONG_MAX
  }

  /** Replaying the log, and the open transaction if there is one, gives ds; `selected` is then
      the selected database unless it is -1. */
  ghost predicate LogTracks(eng: Engine, log: seq<Argv>, ds: Dataset, selected: int, inMulti: bool)
    requires Commands(log)
  {
    && (forall t: int ::
          var s := RunAll(eng, t, FRESH, log);
          s.ds == ds && (selected >= 0 ==> s.db == selected))
    && (Open(eng, log) ==> inMulti)
  }

  /** The bytes are well formed and replay to ds. */
  ghost predicate Tracks(eng: Engine, bytes: Bytes, ds: Dataset, selected: int, inMulti: bool) {
    exists log: seq<Argv> :: Commands(log) && bytes == EncodeAll(log) && LogTracks(eng, log, ds, selected, inMulti)
  }

  /** Everything the rewritten file will hold if the rewrite succeeds now. */
  function Rewritten(s: Server): Bytes
    requires s.child.Some?
  {
    s.child.value.base + (s.child.value.diff + s.pipe + s.blocks)
  }

  ghost predicate Inv(eng: Engine, s: Server) {
    !s.dead ==>
      && (s.child.None? ==> s.blocks == "")
      && (s.aofState == On && !s.damaged && (OtherShifts(eng) || !s.drifted) ==>
            Tracks(eng, s.out.file + s.out.buf, Shifted(s.ds, s.skew), s.selected, s.inMulti))
      && (!s.drifted ==> s.skew == map[])
      && (s.aofState == On && !s.statFailed ==> SizeKnown(s.out) && !s.damaged)
      && (s.child.Some? ==>
            && s.child.value.fed == s.child.value.diff + s.pipe + s.blocks
            && (s.aofState == Off ==> s.child.value.fed == "")
            && (s.aofState != Off && (OtherShifts(eng) || !s.child.value.drifted) ==>
                  Tracks(eng, Rewritten(s), Shifted(s.ds, s.child.value.skew), s.selected, s.inMulti))
            && (!s.child.value.drifted ==> s.child.value.skew == map[])
            && (s.child.value.phase == Finished ==> s.stopSending && s.pipe == ""))
      && (s.ackSent ==> s.stopSending)
  }

  // ----- logs grow ----------------------------------------------------------

  predicate NoMulti(eng: Engine, cmds: seq<Argv>) {
    forall i :: 0 <= i < |cmds| ==> cmds[i] != [] && eng.kindOf(cmds[i][0]) != MultiCmd
  }

  lemma {:induction false} OpenAppend(eng: Engine, log: seq<Argv>, cmds: seq<Argv>)
    requires Commands(log) && Commands(cmds) && NoMulti(eng, cmds)
    ensures Open(eng, log + cmds) ==> Open(eng, log)
    decreases |cmds|
  {
    if cmds == [] {
      assert log + cmds == log;
    } else {
      var n := |cmds| - 1;
      assert (log + cmds)[..|log| + n] == log + cmds[..n];
      OpenAppend(eng, log, cmds[..n]);
    }
  }

  lemma TracksAppend(eng: Engine, bytes: Bytes, ds: Dataset, selected: int, inMulti: bool,
                     cmds: seq<Argv>, ds': Dataset, selected': int, inMulti': bool)
    requires Tracks(eng, bytes, ds, selected, inMulti) && Commands(cmds)
    requires forall t: int, d: nat :: (selected >= 0 ==> d == selected) ==>
               var r := RunAll(eng, t, Session(ds, d), cmds);
               r.ds == ds' && (selected' >= 0 ==> r.db == selected')
    requires forall log: seq<Argv> :: Commands(log) && (Open(eng, log) ==> inMulti) ==>
               (Open(eng, log + cmds) ==> inMulti')
    ensures Tracks(eng, bytes + EncodeAll(cmds), ds', selected', inMulti')
  {
    hide RunOne;
    hide Open;
    hide RunAll;
    var log: seq<Argv> :| Commands(log) && bytes == EncodeAll(log) && LogTracks(eng, log, ds, selected, inMulti);
    var log' := log + cmds;
    EncodeAllConcat(log, cmds);
    forall t: int
      ensures var s := RunAll(eng, t, FRESH, log'); s.ds == ds' && (selected' >= 0 ==> s.db == selected')
    {
      RunAllConcat(eng, t, FRESH, log, cmds);
      var s := RunAll(eng, t, FRESH, log);
      assert s == Session(ds, s.db);
    }
    assert LogTracks(eng, log', ds', selected', inMulti');
  }

  // ----- feeding keeps the tracking -----------------------------------------

  /** A propagated command is not MULTI. */
  lemma PropagatedKind(eng: Engine, now: int, force: bool, ds: Dataset, db: nat, argv: Argv)
    requires KnowsNames(eng) && argv != []
    requires Execute(eng, false, now, force, ds, db, argv).dirty
    ensures eng.kindOf(Execute(eng, false, now, force, ds, db, argv).argv[0]) != MultiCmd
  {
    hide ParseSet;
    hide Strict;
    hide Wrap;
    hide Untimed;
    hide SetGeneric;
    if eng.kindOf(argv[0]) == SetCmd {
      SetArgvKept(eng, now, force, ds, db, argv);
    } else if eng.kindOf(argv[0]) in {SetexCmd, PsetexCmd} {
      SetexEffect(eng, now, force, ds, db, argv);
    }
  }

  lemma TranslateNoMulti(eng: Engine, argv: Argv, now: int)
    requires KnowsNames(eng) && argv != [] && eng.kindOf(argv[0]) != MultiCmd
    requires Translate(eng, argv, now).Some?
    ensures NoMulti(eng, Translate(eng, argv, now).value)
  {
    hide ScanOption;
    hide When;
    hide PrintInt;
  }

  /** After a propagated command, at any two clock readings, what was fed replays to the new dataset
      with its new skew. */
  lemma CallTracks(eng: Engine, bytes: Bytes, s: Server, sk: Skew, db: nat, argv: Argv, now: int, fedAt: int, force: bool)
    requires GoodEngine(eng) && argv != [] && db < eng.dbnum && (OtherShifts(eng) || sk == map[])
    requires Tracks(eng, bytes, Shifted(s.ds, sk), s.selected, s.inMulti)
    requires Execute(eng, false, now, force, s.ds, db, argv).dirty
    requires Translate(eng, Execute(eng, false, now, force, s.ds, db, argv).argv, fedAt).Some?
    ensures var r := Execute(eng, false, now, force, s.ds, db, argv);
            var fed := Fed(s.selected, db, Translate(eng, r.argv, fedAt).value);
            Tracks(eng, bytes + EncodeAll(fed), Shifted(r.ds, NewSkew(eng, s.ds, r.ds, db, r.argv, sk, now, fedAt)), db, s.inMulti)
  {
    hide Execute;
    hide Translate;
    hide RunAll;
    hide Tracks;
    hide Open;
    hide Shifted;
    hide NewSkew;
    hide OtherShifts;
    var r := Execute(eng, false, now, force, s.ds, db, argv);
    var cmds := Translate(eng, r.argv, fedAt).value;
    var fed := Fed(s.selected, db, cmds);
    var a := Shifted(s.ds, sk);
    var b := Shifted(r.ds, NewSkew(eng, s.ds, r.ds, db, r.argv, sk, now, fedAt));
    PropagatedKind(eng, now, force, s.ds, db, argv);
    TranslateNoMulti(eng, r.argv, fedAt);
    forall t: int, d: nat | s.selected >= 0 ==> d == s.selected
      ensures RunAll(eng, t, Session(a, d), fed) == Session(b, db)
    {
      FedShifts(eng, now, fedAt, force, s.ds, sk, d, s.selected, db, argv, t);
    }
    forall log: seq<Argv> | Commands(log) && (Open(eng, log) ==> s.inMulti)
      ensures Open(eng, log + fed) ==> s.inMulti
    {
      OpenAppend(eng, log, fed);
    }
    TracksAppend(eng, bytes, a, s.selected, s.inMulti, fed, b, db, s.inMulti);
  }

  lemma MarkerTracks(eng: Engine, bytes: Bytes, s: Server, ds: Dataset, db: nat, argv: Argv)
    requires GoodEngine(eng) && argv != [] && db < eng.dbnum && eng.kindOf(argv[0]) in {MultiCmd, ExecCmd}
    requires Tracks(eng, bytes, ds, s.selected, s.inMulti)
    ensures Tracks(eng, bytes + EncodeAll(Fed(s.selected, db, [argv])), ds, db, eng.kindOf(argv[0]) == MultiCmd)
  {
    hide Tracks;
    hide RunAll;
    var fed := Fed(s.selected, db, [argv]);
    forall t: int, d: nat | s.selected >= 0 ==> d == s.selected
      ensures RunAll(eng, t, Session(ds, d), fed) == Session(ds, db)
    {
      MarkerRuns(eng, t, Session(ds, d), s.selected, db, argv);
    }
    forall log: seq<Argv> | Commands(log)
      ensures Open(eng, log + fed) ==> eng.kindOf(argv[0]) == MultiCmd
    {
      assert (log + fed)[|log + fed| - 1] == argv;
    }
    TracksAppend(eng, bytes, ds, s.selected, s.inMulti, fed, ds, db, eng.kindOf(argv[0]) == MultiCmd);
  }

  lemma MarkerRunsOne(eng: Engine, t: int, s: Session, argv: Argv)
    requires argv != [] && eng.kindOf(argv[0]) in {MultiCmd, ExecCmd}
    ensures RunOne(eng, t, s, argv) == s
  {
    hide SetGeneric;
    hide ExpireGeneric;
    hide Untimed;
    hide ParseSet;
  }

  lemma MarkerRuns(eng: Engine, t: int, s: Session, selected: int, db: nat, argv: Argv)
    requires GoodEngine(eng) && argv != [] && db < eng.dbnum && eng.kindOf(argv[0]) in {MultiCmd, ExecCmd}
    requires selected >= 0 ==> s.db == selected
    ensures RunAll(eng, t, s, Fed(selected, db, [argv])) == s.(db := db)
  {
    hide RunOne;
    hide RunAll;
    hide KnowsNames;
    RunAllOne(eng, t, s.(db := db), argv);
    MarkerRunsOne(eng, t, s.(db := db), argv);
    if db != selected {
      RunSelect(eng, t, s, db);
      RunAllOne(eng, t, s, SelectCommand(db));
      RunAllConcat(eng, t, s, [SelectCommand(db)], [argv]);
    } else {
      assert Fed(selected, db, [argv]) == [argv];
    }
  }

  // ----- the snapshot tracks the dataset ------------------------------------

  lemma {:induction false} BatchesNoMulti(eng: Engine, kind: Kind, key: Bytes, items: seq<Argv>, n: nat)
    requires KnowsNames(eng) && IsAggregate(kind) && n >= 1
    ensures NoMulti(eng, Batches(CommandName(kind), key, items, n))
    decreases |items|
  {
    hide KnowsNames;
    hide CommandName;
    NamesKnown(eng, kind);
    if items == [] {
    } else {
      BatchesNoMulti(eng, kind, key, items[if |items| > n then n else |items|..], n);
    }
  }

  lemma {:induction false} EntriesNoMulti(eng: Engine, entries: seq<DumpEntry>, n: nat)
    requires KnowsNames(eng) && EntriesOk(eng, entries) && n >= 1
    ensures NoMulti(eng, EntriesCommands(eng, entries, n))
    decreases |entries|
  {
    hide Batches;
    hide ItemOk;
    hide CommandName;
    if entries == [] {
    } else {
      var v := entries[0].value;
      assert EntryOk(eng, entries[0]);
      if v.Aggregate? { BatchesNoMulti(eng, v.kind, entries[0].name, v.items, n); }
      assert NoMulti(eng, EntryCommands(eng, entries[0], n));
      EntriesNoMulti(eng, entries[1..], n);
    }
  }

  lemma {:induction false} RewriteNoMulti(eng: Engine, dump: Dump, j: nat, n: nat)
    requires KnowsNames(eng) && DumpOk(eng, dump) && j <= |dump| && n >= 1
    ensures NoMulti(eng, RewriteFrom(eng, dump, j, n))
    decreases |dump| - j
  {
    hide EntryOk;
    hide EntriesCommands;
    if j == |dump| {
    } else {
      EntriesNoMulti(eng, dump[j], n);
      RewriteNoMulti(eng, dump, j + 1, n);
    }
  }

  lemma ForkTracks(eng: Engine, dump: Dump, ds: Dataset, n: nat, inMulti: bool)
    requires GoodEngine(eng) && ScoresAreNumbers(eng) && GoodDump(eng, dump, n) && Enumerates(eng, dump, ds)
    ensures Tracks(eng, EncodeAll(RewriteCommands(eng, dump, n)), ds, -1, inMulti)
  {
    hide RewriteFrom;
    hide Enumerates;
    hide RunAll;
    hide EncodeAll;
    hide DumpOk;
    hide KnowsNames;
    var log := RewriteCommands(eng, dump, n);
    forall t: int ensures RunAll(eng, t, FRESH, log).ds == ds {
      RewriteRebuilds(eng, t, dump, ds, n);
    }
    RewriteNoMulti(eng, dump, 0, n);
    OpenAppend(eng, [], log);
    assert [] + log == log;
    assert LogTracks(eng, log, ds, -1, inMulti);
  }

  // ----- every event keeps the invariant ------------------------------------

  lemma TracksWeaken(eng: Engine, bytes: Bytes, ds: Dataset, selected: int, inMulti: bool)
    requires Tracks(eng, bytes, ds, selected, inMulti)
    ensures Tracks(eng, bytes, ds, -1, inMulti)
  {
    hide RunAll;
    hide Open;
    hide EncodeAll;
    var log: seq<Argv> :| Commands(log) && bytes == EncodeAll(log) && LogTracks(eng, log, ds, selected, inMulti);
    assert LogTracks(eng, log, ds, -1, inMulti);
  }

  /** One tracking is carried over by what is fed. */
  ghost predicate Carries(eng: Engine, s: Server, s1: Server, db: nat, cmds: seq<Argv>, sk: Skew, sk': Skew) {
    forall bytes: Bytes :: Tracks(eng, bytes, Shifted(s.ds, sk), s.selected, s.inMulti) ==>
      Tracks(eng, bytes + EncodeAll(Fed(s.selected, db, cmds)), Shifted(s1.ds, sk'), db, s1.inMulti)
  }

  /** Feeding the same bytes to the buffer and to the rewrite blocks keeps both in step. */
  lemma FeedKeepsInv(eng: Engine, s: Server, s1: Server, db: nat, cmds: seq<Argv>, drift: bool, skew: Skew, childSkew: Skew)
    requires Inv(eng, s) && !s.dead && s.aofState != Off
    requires s1 == s.(ds := s1.ds, inMulti := s1.inMulti)
    requires OtherShifts(eng) || !(s.drifted || drift) ==> Carries(eng, s, s1, db, cmds, s.skew, skew)
    requires s.child.Some? && (OtherShifts(eng) || !(s.child.value.drifted || drift)) ==>
               Carries(eng, s, s1, db, cmds, s.child.value.skew, childSkew)
    requires !(s.drifted || drift) ==> skew == map[]
    requires s.child.Some? && !(s.child.value.drifted || drift) ==> childSkew == map[]
    ensures Inv(eng, Feed(s1, db, cmds, drift, skew, childSkew))
  {
    hide Tracks;
    hide Fed;
    hide EncodeAll;
    hide Shifted;
    hide OtherShifts;
    var x := EncodeAll(Fed(s.selected, db, cmds));
    Assoc(s.out.file, s.out.buf, x);
    if s.child.Some? {
      var c := s.child.value;
      Assoc(c.diff + s.pipe, s.blocks, x);
      Assoc(c.base, c.diff + s.pipe + s.blocks, x);
    }
  }

  lemma CallCarries(eng: Engine, s: Server, sk: Skew, db: nat, argv: Argv, now: int, fedAt: int, force: bool)
    requires GoodEngine(eng) && argv != [] && db < eng.dbnum && (OtherShifts(eng) || sk == map[])
    requires Execute(eng, false, now, force, s.ds, db, argv).dirty
    requires Translate(eng, Execute(eng, false, now, force, s.ds, db, argv).argv, fedAt).Some?
    ensures var r := Execute(eng, false, now, force, s.ds, db, argv);
            Carries(eng, s, s.(ds := r.ds), db, Translate(eng, r.argv, fedAt).value, sk,
                    NewSkew(eng, s.ds, r.ds, db, r.argv, sk, now, fedAt))
  {
    hide Execute;
    hide Translate;
    hide Tracks;
    hide Shifted;
    hide NewSkew;
    hide OtherShifts;
    hide KnowsNames;
    var r := Execute(eng, false, now, force, s.ds, db, argv);
    forall bytes: Bytes | Tracks(eng, bytes, Shifted(s.ds, sk), s.selected, s.inMulti)
      ensures Tracks(eng, bytes + EncodeAll(Fed(s.selected, db, Translate(eng, r.argv, fedAt).value)),
                     Shifted(r.ds, NewSkew(eng, s.ds, r.ds, db, r.argv, sk, now, fedAt)), db, s.inMulti)
    {
      CallTracks(eng, bytes, s, sk, db, argv, now, fedAt, force);
    }
  }

  lemma CallKeepsInv(eng: Engine, s: Server, db: nat, argv: Argv, now: int, fedAt: int, force: bool)
    requires GoodEngine(eng) && Inv(eng, s) && !s.dead && argv != [] && db < eng.dbnum
    ensures Inv(eng, DoCall(eng, s, db, argv, now, fedAt, force))
  {
    hide Execute;
    hide Translate;
    hide Tracks;
    hide Feed;
    hide Drifts;
    hide Shifted;
    hide NewSkew;
    hide OtherShifts;
    hide Carries;
    hide KnowsNames;
    var r := Execute(eng, false, now, force, s.ds, db, argv);
    if r.dirty && s.aofState != Off {
      var cmds := Translate(eng, r.argv, fedAt);
      if cmds.Some? {
        var drift := Drifts(eng, r.argv, now, fedAt);
        var sk := NewSkew(eng, s.ds, r.ds, db, r.argv, s.skew, now, fedAt);
        var csk := NewSkew(eng, s.ds, r.ds, db, r.argv, ChildSkew(s), now, fedAt);
        if OtherShifts(eng) || !s.drifted {
          CallCarries(eng, s, s.skew, db, argv, now, fedAt, force);
        }
        if OtherShifts(eng) || ChildSkew(s) == map[] {
          CallCarries(eng, s, ChildSkew(s), db, argv, now, fedAt, force);
        }
        if !drift {
          StaysUnskewed(eng, s.ds, r.ds, db, r.argv, now, fedAt);
        }
        FeedKeepsInv(eng, s, s.(ds := r.ds), db, cmds.value, drift, sk, csk);
      }
    }
  }

  lemma MarkerKeepsInv(eng: Engine, s: Server, db: nat, argv: Argv)
    requires GoodEngine(eng) && Inv(eng, s) && !s.dead && argv != [] && db < eng.dbnum
    requires eng.kindOf(argv[0]) in {MultiCmd, ExecCmd}
    ensures Inv(eng, DoMarker(eng, s, db, argv))
  {
    hide Tracks;
    hide Feed;
    hide Shifted;
    hide OtherShifts;
    hide KnowsNames;
    var s1 := s.(inMulti := eng.kindOf(argv[0]) == MultiCmd);
    if s.aofState != Off {
      forall sk: Skew ensures Carries(eng, s, s1, db, [argv], sk, sk) {
        MarkerCarries(eng, s, sk, db, argv);
      }
      hide Carries;
      FeedKeepsInv(eng, s, s1, db, [argv], false, s.skew, ChildSkew(s));
    }
  }

  lemma MarkerCarries(eng: Engine, s: Server, sk: Skew, db: nat, argv: Argv)
    requires GoodEngine(eng) && argv != [] && db < eng.dbnum && eng.kindOf(argv[0]) in {MultiCmd, ExecCmd}
    ensures Carries(eng, s, s.(inMulti := eng.kindOf(argv[0]) == MultiCmd), db, [argv], sk, sk)
  {
    hide Tracks;
    hide Shifted;
    forall bytes: Bytes | Tracks(eng, bytes, Shifted(s.ds, sk), s.selected, s.inMulti)
      ensures Tracks(eng, bytes + EncodeAll(Fed(s.selected, db, [argv])), Shifted(s.ds, sk), db, eng.kindOf(argv[0]) == MultiCmd)
    {
      MarkerTracks(eng, bytes, s, Shifted(s.ds, sk), db, argv);
    }
  }

  lemma FlushFacts(o: Output, force: bool, env: Env)
    ensures var f := Flush(o, force, env);
            !f.exited ==>
              && (!BadUndo(o, force, env) ==> f.out.file + f.out.buf == o.file + o.buf)
              && (SizeKnown(o) ==> SizeKnown(f.out) && !BadUndo(o, force, env))
  {
    if !Flush(o, force, env).exited {
      UndoNeedsTrueSize(o, force, env);
    }
    if SizeKnown(o) {
      FlushPreserves(o, force, env);
    }
  }

  lemma FlushKeepsInv(eng: Engine, s: Server, force: bool, env: Env)
    requires Inv(eng, s) && !s.dead
    ensures Inv(eng, DoFlush(s, force, env))
  {
    hide Tracks;
    hide Flush;
    hide Shifted;
    hide OtherShifts;
    hide BadUndo;
    hide SizeKnown;
    FlushFacts(s.out, force, env);
  }

  lemma ForkKeepsInv(eng: Engine, s: Server, dump: Dump, n: nat, state: AofState)
    requires GoodEngine(eng) && ScoresAreNumbers(eng) && GoodDump(eng, dump, n) && Enumerates(eng, dump, s.ds)
    requires Inv(eng, s) && !s.dead && s.child.None?
    requires state == s.aofState || state == WaitRewrite
    ensures Inv(eng, DoFork(eng, s, dump, n).(aofState := state))
  {
    hide Tracks;
    hide Enumerates;
    hide DumpOk;
    hide RewriteCommands;
    var s' := DoFork(eng, s, dump, n).(aofState := state);
    if s.aofState == On && !s.damaged && (OtherShifts(eng) || !s.drifted) {
      TracksWeaken(eng, s.out.file + s.out.buf, Shifted(s.ds, s.skew), s.selected, s.inMulti);
    }
    NotShifted(s.ds);
    ForkTracks(eng, dump, s.ds, n, s.inMulti);
    assert "" + "" + "" == "";
    assert Rewritten(s') == s'.child.value.base;
  }

  lemma SwitchKeepsInv(eng: Engine, s: Server, statOk: bool)
    requires Inv(eng, s) && !s.dead && s.child.Some? && s.child.value.phase == Finished
    ensures Inv(eng, Cleanup(DoSwitch(s, statOk)))
    ensures DoSwitch(s, statOk).out.file == s.child.value.base + s.child.value.fed
  {
    hide Tracks;
    var c := s.child.value;
    assert c.diff + s.pipe == c.diff;
    Assoc(c.base, c.diff, s.blocks);
    if s.aofState != Off {
      if OtherShifts(eng) || !c.drifted {
        TracksWeaken(eng, Rewritten(s), Shifted(s.ds, c.skew), s.selected, s.inMulti);
      }
      assert DoSwitch(s, statOk).out.file + "" == Rewritten(s);
    }
  }

  lemma TransferKeepsInv(eng: Engine, n: nat, s: Server, e: Event)
    requires Inv(eng, s) && !s.dead && n >= 1
    requires e.ParentSend? || e.ChildRead? || e.ChildFinish?
    ensures Inv(eng, Next(eng, n, s, e))
  {
    hide Tracks;
    hide Shifted;
    hide OtherShifts;
    hide SizeKnown;
    hide DoCall;
    hide DoMarker;
    hide DoFork;
    hide DoFlush;
    hide DoSwitch;
    hide GoodDump;
    if s.child.Some? {
      var c := s.child.value;
      match e
      case ParentSend(k) =>
        if k <= |s.blocks| {
          assert s.blocks[..k] + s.blocks[k..] == s.blocks;
          Assoc(c.diff + s.pipe, s.blocks[..k], s.blocks[k..]);
          Assoc(c.diff, s.pipe, s.blocks[..k]);
        }
      case ChildRead(k) =>
        if k <= |s.pipe| {
          assert s.pipe[..k] + s.pipe[k..] == s.pipe;
          Assoc(c.diff, s.pipe[..k], s.pipe[k..]);
        }
      case ChildFinish =>
        assert c.diff + s.pipe + "" == c.diff + s.pipe;
    }
  }

  lemma CleanupKeepsInv(eng: Engine, s: Server)
    requires Inv(eng, s) && !s.dead
    ensures Inv(eng, Cleanup(s))
  {
    hide Tracks;
    hide Shifted;
    hide OtherShifts;
    hide SizeKnown;
  }

  lemma WaitKeepsInv(eng: Engine, s: Server)
    requires Inv(eng, s) && !s.dead && s.child.None?
    ensures Inv(eng, s.(aofState := WaitRewrite))
  {
    hide Tracks;
    hide Shifted;
    hide OtherShifts;
    hide SizeKnown;
  }

  lemma ForkEventKeepsInv(eng: Engine, n: nat, s: Server, e: Event)
    requires GoodEngine(eng) && ScoresAreNumbers(eng) && n >= 1 && Inv(eng, s) && !s.dead
    requires e.Fork? || e.StartAof?
    ensures Inv(eng, Next(eng, n, s, e))
  {
    hide Inv;
    hide DoCall;
    hide DoMarker;
    hide DoFlush;
    hide DoSwitch;
    hide DoFork;
    hide Cleanup;
    hide DumpOk;
    hide NoEmptyAggregate;
    hide Enumerates;
    hide KnowsNames;
    hide ScoresAreNumbers;
    if s.child.None? {
      WaitKeepsInv(eng, s);
    }
    CleanupKeepsInv(eng, s);
    CleanupIs(s);
    if GoodDump(eng, e.dump, n) && Enumerates(eng, e.dump, s.ds) {
      ForkKeepsInv(eng, Cleanup(s), e.dump, n, WaitRewrite);
      if s.child.None? {
        ForkKeepsInv(eng, s, e.dump, n, s.aofState);
        ForkState(eng, s, e.dump, n);
      }
    }
  }

  lemma CleanupIs(s: Server)
    ensures Cleanup(s).ds == s.ds && Cleanup(s).dead == s.dead && Cleanup(s).child == None
  {
  }

  lemma EndKeepsInv(eng: Engine, n: nat, s: Server, e: Event)
    requires Inv(eng, s) && !s.dead && n >= 1
    requires e.ChildExit? || e.KillChild? || e.StopAof? || e.FlushOut? || e.ChildAsk? || e.ParentAck?
    ensures Inv(eng, Next(eng, n, s, e))
  {
    hide Tracks;
    hide Shifted;
    hide OtherShifts;
    hide SizeKnown;
    hide DoCall;
    hide DoMarker;
    hide DoFork;
    hide GoodDump;
    hide DoFlush;
    hide DoSwitch;
    if e.StopAof? {
      FlushKeepsInv(eng, s, true, e.env);
      FlushChangesOut(s, true, e.env);
    } else if e.FlushOut? {
      FlushKeepsInv(eng, s, e.force, e.env);
    } else if e.ChildExit? && s.child.Some? && s.child.value.phase == Finished {
      SwitchKeepsInv(eng, s, e.statOk);
    }
  }

  lemma FlushChangesOut(s: Server, force: bool, env: Env)
    ensures var f := DoFlush(s, force, env); f == s.(out := f.out, damaged := f.damaged, dead := f.dead)
  {
  }

  /** Every event keeps the invariant. */
  lemma NextKeepsInv(eng: Engine, n: nat, s: Server, e: Event)
    requires GoodEngine(eng) && ScoresAreNumbers(eng) && n >= 1 && Inv(eng, s)
    ensures Inv(eng, Next(eng, n, s, e))
  {
    hide Inv;
    hide DoCall;
    hide DoMarker;
    hide KnowsNames;
    if s.dead {
      DeadStays(eng, n, s, e);
    } else if e.Call? || e.Marker? {
      CommandKeepsInv(eng, n, s, e);
    } else if e.Fork? || e.StartAof? {
      ForkEventKeepsInv(eng, n, s, e);
    } else if e.ParentSend? || e.ChildRead? || e.ChildFinish? {
      TransferKeepsInv(eng, n, s, e);
    } else {
      EndKeepsInv(eng, n, s, e);
    }
  }

  lemma DeadStays(eng: Engine, n: nat, s: Server, e: Event)
    requires n >= 1 && s.dead
    ensures Next(eng, n, s, e) == s && Inv(eng, s)
  {
  }

  lemma CommandKeepsInv(eng: Engine, n: nat, s: Server, e: Event)
    requires GoodEngine(eng) && n >= 1 && Inv(eng, s) && !s.dead && (e.Call? || e.Marker?)
    ensures Inv(eng, Next(eng, n, s, e))
  {
    hide Inv;
    hide DoCall;
    hide DoMarker;
    hide KnowsNames;
    if e.argv != [] && e.db < eng.dbnum {
      if e.Call? {
        CallKeepsInv(eng, s, e.db, e.argv, e.now, e.fedAt, e.force);
      } else if eng.kindOf(e.argv[0]) in {MultiCmd, ExecCmd} {
        MarkerKeepsInv(eng, s, e.db, e.argv);
      }
    }
  }

  lemma ForkState(eng: Engine, s: Server, dump: Dump, n: nat)
    requires GoodDump(eng, dump, n)
    ensures DoFork(eng, s, dump, n).(aofState := s.aofState) == DoFork(eng, s, dump, n)
  {
    hide RewriteCommands;
  }

  lemma {:induction false} RunKeepsInv(eng: Engine, n: nat, s: Server, events: seq<Event>)
    requires GoodEngine(eng) && ScoresAreNumbers(eng) && n >= 1 && Inv(eng, s)
    ensures Inv(eng, Run(eng, n, s, events))
    decreases |events|
  {
    hide Next;
    hide Inv;
    if events == [] {
    } else {
      NextKeepsInv(eng, n, s, events[0]);
      RunKeepsInv(eng, n, Next(eng, n, s, events[0]), events[1..]);
    }
  }

  // ----- the theorems -------------------------------------------------------

  /** A server that has just loaded a well-formed file, with the log switched on. The loader's fstat
      may fail: then the recorded size is whatever it was. */
  function Started(log: seq<Argv>, ds: Dataset, stale: Option<int>): Server {
    var file := EncodeAll(log);
    var size := if stale.Some? then stale.value else |file|;
    Server(ds, false, On, Output(file, "", size, 0, 0, size, true, 0), -1, None, "", "", false, false,
           stale.Some?, false, false, map[], false)
  }

  /** A server that runs with the log switched off, whatever file lies around. */
  function StartedOff(file: Bytes, ds: Dataset): Server {
    Server(ds, false, Off, Output(file, "", 0, 0, 0, 0, true, 0), -1, None, "", "", false, false,
           false, false, false, map[], false)
  }

  ghost predicate ReplaysTo(eng: Engine, log: seq<Argv>, ds: Dataset) {
    Commands(log) && !Open(eng, log) && forall t: int :: RunAll(eng, t, FRESH, log).ds == ds
  }

  lemma StartsInInv(eng: Engine, log: seq<Argv>, ds: Dataset, file: Bytes, stale: Option<int>)
    requires ReplaysTo(eng, log, ds)
    ensures Inv(eng, Started(log, ds, stale)) && Inv(eng, StartedOff(file, ds))
  {
    NotShifted(ds);
    hide RunAll;
    hide Open;
    hide EncodeAll;
    assert LogTracks(eng, log, ds, -1, false);
    assert EncodeAll(log) + "" == EncodeAll(log);
  }

  /** Loading tracked bytes, at any time, gives the tracked dataset and does not cut them. */
  lemma TrackedBytesLoad(eng: Engine, t: int, bytes: Bytes, ds: Dataset, selected: int)
    requires Tracks(eng, bytes, ds, selected, false)
    ensures if bytes == "" then ds == map[] else Load(eng, t, bytes, true, true) == Loaded(ds, |bytes|)
  {
    hide RunAll;
    hide Open;
    hide Load;
    hide BeforeMulti;
    var log: seq<Argv> :| Commands(log) && bytes == EncodeAll(log) && LogTracks(eng, log, ds, selected, false);
    var s := RunAll(eng, t, FRESH, log);
    LoaderIsClosed(eng, t, log);
    if log == [] {
      RunNothing(eng, t, FRESH);
    } else {
      LoadWhole(eng, t, log);
    }
  }

  function Begin(on: bool, log: seq<Argv>, file: Bytes, ds: Dataset, stale: Option<int>): Server {
    if on then Started(log, ds, stale) else StartedOff(file, ds)
  }

  lemma ReachableInv(eng: Engine, n: nat, log: seq<Argv>, ds: Dataset, file: Bytes, on: bool, stale: Option<int>, events: seq<Event>)
    requires GoodEngine(eng) && ScoresAreNumbers(eng) && n >= 1 && ReplaysTo(eng, log, ds)
    ensures Inv(eng, Run(eng, n, Begin(on, log, file, ds, stale), events))
  {
    hide Run;
    hide Inv;
    hide ReplaysTo;
    hide Started;
    hide StartedOff;
    StartsInInv(eng, log, ds, file, stale);
    RunKeepsInv(eng, n, Begin(on, log, file, ds, stale), events);
  }

  /** Main theorem. Start from a well-formed file that replays to the dataset, or with the log
      off. After any sequence of commands, flushes, forks, transfers, acks, child exits, kills,
      stops and starts, with any outcome of every system call and any clock readings: when the log
      is on and no transaction is open, loading file ++ buffer at any time gives exactly the current
      dataset with its expires shifted by the skew, that is, the same keys and values, each expire
      off by the distance of the two clock readings of the command that set it. The one exception is
      a short write that was undone with a wrong size since the last switch (damaged, see
      UndoNeedsTrueSize). While nothing drifted the skew is empty and the dataset itself is loaded;
      this case needs no promise about the commands outside the model. Unless fstat failed at the
      last switch or at the start, the recorded size is right and nothing is damaged. */
  lemma FileTracksDataset(eng: Engine, n: nat, log: seq<Argv>, ds: Dataset, file: Bytes, on: bool, stale: Option<int>,
                          events: seq<Event>, t: int)
    requires GoodEngine(eng) && ScoresAreNumbers(eng) && n >= 1 && ReplaysTo(eng, log, ds)
    ensures var s := Run(eng, n, Begin(on, log, file, ds, stale), events);
            var bytes := s.out.file + s.out.buf;
            !s.dead && s.aofState == On ==>
              && (!s.statFailed ==> s.out.size == |s.out.file| && !s.damaged)
              && (!s.drifted ==> s.skew == map[] && Shifted(s.ds, s.skew) == s.ds)
              && (!s.damaged && !s.inMulti && (OtherShifts(eng) || !s.drifted) ==>
                    if bytes == "" then s.ds == map[]
                    else Load(eng, t, bytes, true, true) == Loaded(Shifted(s.ds, s.skew), |bytes|))
  {
    hide Run;
    hide Tracks;
    hide Load;
    hide ReplaysTo;
    hide Begin;
    hide OtherShifts;
    hide KnowsNames;
    ReachableInv(eng, n, log, ds, file, on, stale, events);
    var s := Run(eng, n, Begin(on, log, file, ds, stale), events);
    NotShifted(s.ds);
    EmptyShifted(s.ds, s.skew);
    hide Shifted;
    if !s.dead && s.aofState == On && !s.damaged && (OtherShifts(eng) || !s.drifted) && !s.inMulti {
      TrackedBytesLoad(eng, t, s.out.file + s.out.buf, Shifted(s.ds, s.skew), s.selected);
    }
  }

  lemma EmptyShifted(ds: Dataset, sk: Skew)
    ensures Shifted(ds, sk) == map[] ==> ds == map[]
  {
    if ds != map[] {
      var k :| k in ds;
      ShiftedAt(ds, sk, k);
    }
  }

  /** What a propagated command does to the skew: the expire it sets relative to the clock is off by
      the distance of its two readings, any other it sets is not off, and those it leaves alone stay
      as they are. */
  lemma SkewAfterCall(eng: Engine, s: Server, db: nat, argv: Argv, now: int, fedAt: int, force: bool, k: Key)
    requires argv != [] && !s.dead && s.aofState == On && KnowsNames(eng)
    requires var r := Execute(eng, false, now, force, s.ds, db, argv);
             r.dirty && Translate(eng, r.argv, fedAt).Some? && !UsesOther(eng, r.argv)
    ensures var r := Execute(eng, false, now, force, s.ds, db, argv);
            var s' := DoCall(eng, s, db, argv, now, fedAt, force);
            k in s'.ds ==>
              OffBy(s'.skew, k) ==
              if |r.argv| >= 2 && k == Key(db, r.argv[1]) && HasRelativeTtl(eng, r.argv) then Drift(now, fedAt)
              else if k in Touched(eng, db, r.argv) || k !in s.ds then 0
              else OffBy(s.skew, k)
  {
    hide Execute;
    hide Translate;
    hide HasRelativeTtl;
    hide Touched;
    hide UsesOther;
    hide KnowsNames;
    hide DoCall;
    hide NewSkew;
    var r := Execute(eng, false, now, force, s.ds, db, argv);
    CallFrame(eng, s, db, argv, now, fedAt, force);
    if HasRelativeTtl(eng, r.argv) {
      TimedArgvKept(eng, now, force, s.ds, db, argv);
      RelativeTouches(eng, now, force, s.ds, db, argv);
    }
    if k in r.ds {
      SkewIs(eng, s.ds, r.ds, db, r.argv, s.skew, now, fedAt, k);
    }
  }

  lemma SkewIs(eng: Engine, ds: Dataset, ds': Dataset, db: nat, argv: Argv, sk: Skew, now: int, fedAt: int, k: Key)
    requires argv != [] && !UsesOther(eng, argv) && k in ds'
    ensures OffBy(NewSkew(eng, ds, ds', db, argv, sk, now, fedAt), k) ==
            if |argv| >= 2 && k == Key(db, argv[1]) && HasRelativeTtl(eng, argv) then
              (if Drift(now, fedAt) != 0 || k in Touched(eng, db, argv) || k !in ds then Drift(now, fedAt) else OffBy(sk, k))
            else if k in Touched(eng, db, argv) || k !in ds then 0
            else OffBy(sk, k)
  {
    hide HasRelativeTtl;
    hide Touched;
    hide UsesOther;
  }

  // ----- losing the buffer ------------------------------------------------------

  /** The log `full` is the bytes and replays to ds; the file alone holds its first m commands
      completely, not one more, and loads to what they do. */
  ghost predicate PrefixKept(eng: Engine, t: int, bytes: Bytes, ds: Dataset, file: Bytes, full: seq<Argv>, m: nat)
    requires Commands(full) && m <= |full|
  {
    && EncodeAll(full) == bytes
    && RunAll(eng, t, FRESH, full).ds == ds
    && EncodeAll(full[..m]) <= file && (m < |full| ==> |EncodeAll(full[..m + 1])| > |file|)
    && Load(eng, t, file, true, true) ==
       Loaded(LoadAll(eng, t, START, full[..m]).session.ds, CutAt(eng, t, full, file))
  }

  lemma PrefixLoads(eng: Engine, t: int, bytes: Bytes, ds: Dataset, selected: int, inMulti: bool, file: Bytes)
    returns (full: seq<Argv>, m: nat)
    requires Tracks(eng, bytes, ds, selected, inMulti) && file <= bytes && file != ""
    ensures Commands(full) && m <= |full| && PrefixKept(eng, t, bytes, ds, file, full, m)
  {
    hide Load;
    hide RunAll;
    hide Open;
    hide CutAt;
    hide LoadAll;
    hide EncodeAll;
    hide Complete;
    full :| Commands(full) && bytes == EncodeAll(full) && LogTracks(eng, full, ds, selected, inMulti);
    m := Complete(full, |file|);
    LoadPrefix(eng, t, full, file);
    CompleteIsPrefix(full, file);
  }

  lemma {:induction false} DeadForGood(eng: Engine, n: nat, s: Server, events: seq<Event>)
    requires n >= 1 && s.dead
    ensures Run(eng, n, s, events) == s
    decreases |events|
  {
    if events != [] {
      DeadForGood(eng, n, s, events[1..]);
    }
  }

  /** The last moment of a run at which the server is alive. */
  lemma {:induction false} LastAlive(eng: Engine, n: nat, s: Server, events: seq<Event>) returns (i: nat)
    requires n >= 1 && !s.dead
    ensures i <= |events| && !Run(eng, n, s, events[..i]).dead
    ensures !Run(eng, n, s, events).dead ==> i == |events|
    ensures Run(eng, n, s, events).dead ==>
              i < |events| && Run(eng, n, s, events) == Next(eng, n, Run(eng, n, s, events[..i]), events[i])
    decreases |events|
  {
    hide Next;
    if events == [] {
      i := 0;
    } else {
      var s1 := Next(eng, n, s, events[0]);
      if s1.dead {
        i := 0;
        DeadForGood(eng, n, s1, events[1..]);
        assert events[..0] == [];
      } else {
        var j := LastAlive(eng, n, s1, events[1..]);
        i := j + 1;
        assert events[..i][1..] == events[1..][..j];
      }
    }
  }

  /** What the event that kills the server does to the file. */
  lemma FatalEvent(eng: Engine, n: nat, s: Server, e: Event)
    requires n >= 1 && !s.dead && s.aofState == On
    requires var s' := Next(eng, n, s, e); s'.dead && !s'.damaged
    ensures !s.damaged && Next(eng, n, s, e).out.file <= s.out.file + s.out.buf
  {
    hide DoCall;
    hide DoMarker;
    hide DoFlush;
    hide DoFork;
    hide DoSwitch;
    hide Cleanup;
    hide GoodDump;
    Frames();
    if e.FlushOut? {
      FlushFrame(s, e.force, e.env);
    } else if e.StopAof? {
      FlushFrame(s, true, e.env);
    } else if e.Call? && e.argv != [] {
      CallFrame(eng, s, e.db, e.argv, e.now, e.fedAt, e.force);
    } else if e.Marker? && e.argv != [] {
      MarkerFrame(eng, s, e.db, e.argv);
    } else if e.Fork? && GoodDump(eng, e.dump, n) {
      ForkFrame(eng, s, e.dump, n);
    } else if e.ChildExit? && s.child.Some? {
      SwitchLives(s, e.statOk);
    }
  }

  lemma NoBadUndoAppends(o: Output, force: bool, env: Env)
    ensures !BadUndo(o, force, env) ==> Flush(o, force, env).out.file <= o.file + o.buf
  {
    if !BadUndo(o, force, env) {
      FlushOnlyAppends(o, force, env);
    }
  }

  /** A crash keeps a prefix. In any run, also one that ends in exit(1) after a failed write under the
      ALWAYS policy or in the feeder's assertion: let `live` be the last live state, which is the
      final one when the server is alive. Losing the buffer and loading what is then in the file
      gives what the first m commands of the log do, without an open transaction, where the log is
      what file and buffer held in that live state and replays to its dataset, with the expires off
      by its skew, and m is the number of its commands complete in the file. */
  lemma CrashKeepsPrefix(eng: Engine, n: nat, log: seq<Argv>, ds: Dataset, file: Bytes, on: bool, stale: Option<int>,
                         events: seq<Event>, t: int) returns (live: Server, full: seq<Argv>, m: nat)
    requires GoodEngine(eng) && ScoresAreNumbers(eng) && n >= 1 && ReplaysTo(eng, log, ds)
    ensures Commands(full) && m <= |full| && !live.dead
    ensures exists i :: 0 <= i <= |events| && live == Run(eng, n, Begin(on, log, file, ds, stale), events[..i])
    ensures var s := Run(eng, n, Begin(on, log, file, ds, stale), events);
            && (!s.dead ==> live == s)
            && (live.aofState == On && !s.damaged && (OtherShifts(eng) || !live.drifted) && s.out.file != "" ==>
                  PrefixKept(eng, t, live.out.file + live.out.buf, Shifted(live.ds, live.skew), s.out.file, full, m))
  {
    hide Run;
    hide ReplaysTo;
    hide PrefixKept;
    hide Shifted;
    hide OtherShifts;
    hide KnowsNames;
    hide Next;
    hide Tracks;
    var s0 := Begin(on, log, file, ds, stale);
    var s := Run(eng, n, s0, events);
    var i := LastAlive(eng, n, s0, events);
    live := Run(eng, n, s0, events[..i]);
    assert i == |events| ==> events[..i] == events;
    ReachableInv(eng, n, log, ds, file, on, stale, events[..i]);
    hide Begin;
    full, m := [], 0;
    if live.aofState == On && !s.damaged && (OtherShifts(eng) || !live.drifted) && s.out.file != "" {
      if s.dead {
        FatalEvent(eng, n, live, events[i]);
      }
      full, m := PrefixLoads(eng, t, live.out.file + live.out.buf, Shifted(live.ds, live.skew), live.selected,
                             live.inMulti, s.out.file);
    }
  }

  /** Conservation of the diff: in every reachable state the bytes fed since the fork are what
      the child has, what is in the pipe and what is in the blocks, in this order. */
  lemma DiffIsConserved(eng: Engine, n: nat, log: seq<Argv>, ds: Dataset, file: Bytes, on: bool, stale: Option<int>,
                        events: seq<Event>)
    requires GoodEngine(eng) && ScoresAreNumbers(eng) && n >= 1 && ReplaysTo(eng, log, ds)
    ensures var s := Run(eng, n, Begin(on, log, file, ds, stale), events);
            !s.dead && s.child.Some? ==>
              && s.child.value.fed == s.child.value.diff + s.pipe + s.blocks
              && (s.child.value.phase == Finished ==> s.pipe == "" && s.stopSending)
  {
    hide Run;
    hide ReplaysTo;
    hide Tracks;
    hide Begin;
    ReachableInv(eng, n, log, ds, file, on, stale, events);
  }

  lemma ExitWritesSnapshotPlusFed(eng: Engine, n: nat, s: Server, statOk: bool)
    requires n >= 1 && Inv(eng, s) && !s.dead && s.child.Some? && s.child.value.phase == Finished
    ensures var s' := Next(eng, n, s, ChildExit(true, true, true, true, statOk));
            && s'.out.file == s.child.value.base + s.child.value.fed && s'.child.None? && s'.blocks == ""
            && s'.aofState == (if s.aofState == Off then Off else On) && (s.aofState != Off ==> s'.out.buf == "")
  {
    hide Tracks;
    SwitchKeepsInv(eng, s, statOk);
  }

  /** A successful rewrite leaves the snapshot followed by exactly the bytes fed since the fork, from any
      reachable state; unless the log is off it is on from then on, with an empty buffer. */
  lemma RewriteFileIsSnapshotPlusFed(eng: Engine, n: nat, log: seq<Argv>, ds: Dataset, file: Bytes, on: bool, stale: Option<int>,
                                     events: seq<Event>, statOk: bool)
    requires GoodEngine(eng) && ScoresAreNumbers(eng) && n >= 1 && ReplaysTo(eng, log, ds)
    ensures var s := Run(eng, n, Begin(on, log, file, ds, stale), events);
            !s.dead && s.child.Some? && s.child.value.phase == Finished ==>
              var s' := Next(eng, n, s, ChildExit(true, true, true, true, statOk));
              && s'.out.file == s.child.value.base + s.child.value.fed && s'.child.None? && s'.blocks == ""
              && s'.aofState == (if s.aofState == Off then Off else On) && (s.aofState != Off ==> s'.out.buf == "")
  {
    hide Run;
    hide Next;
    hide Inv;
    hide ReplaysTo;
    hide KnowsNames;
    hide Begin;
    ReachableInv(eng, n, log, ds, file, on, stale, events);
    var s := Run(eng, n, Begin(on, log, file, ds, stale), events);
    if !s.dead && s.child.Some? && s.child.value.phase == Finished {
      ExitWritesSnapshotPlusFed(eng, n, s, statOk);
    }
  }

  /** The last read of the child has to drain the pipe: if it stops after k bytes, the rewritten
      file is the snapshot and the fed bytes exactly when nothing was left behind. */
  lemma LastReadMustDrain(c: Child, pipe: Bytes, blocks: Bytes, k: nat)
    requires c.fed == c.diff + pipe + blocks && k <= |pipe|
    ensures c.base + (c.diff + pipe[..k]) + blocks == c.base + c.fed <==> k == |pipe|
  {
    if k == |pipe| {
      assert pipe[..k] == pipe;
      Assoc(c.base, c.diff + pipe, blocks);
    } else {
      assert |c.base + (c.diff + pipe[..k]) + blocks| < |c.base + c.fed|;
    }
  }

  // ----- what single functions leave alone --------------------------------------

  lemma FeedFrame(s: Server, db: nat, cmds: seq<Argv>, drift: bool, skew: Skew, childSkew: Skew)
    ensures var s' := Feed(s, db, cmds, drift, skew, childSkew);
            && s'.pipe == s.pipe && s'.ds == s.ds && s'.dead == s.dead && s'.out.file == s.out.file
            && s'.damaged == s.damaged && (s.aofState == On ==> s'.skew == skew)
  {
    hide EncodeAll;
    hide Fed;
  }

  lemma CallFrame(eng: Engine, s: Server, db: nat, argv: Argv, now: int, fedAt: int, force: bool)
    requires argv != []
    ensures var s' := DoCall(eng, s, db, argv, now, fedAt, force);
            var r := Execute(eng, false, now, force, s.ds, db, argv);
            && s'.pipe == s.pipe && s'.ds == (if r.dirty then r.ds else s.ds) && s'.out.file == s.out.file
            && s'.damaged == s.damaged
            && (r.dirty && s.aofState == On && Translate(eng, r.argv, fedAt).Some? ==>
                  s'.skew == NewSkew(eng, s.ds, r.ds, db, r.argv, s.skew, now, fedAt))
            && (r.dirty || s'.ds == s.ds)
  {
    hide Execute;
    hide Translate;
    hide Drifts;
    hide Feed;
    hide NewSkew;
    var r := Execute(eng, false, now, force, s.ds, db, argv);
    var cmds := Translate(eng, r.argv, fedAt);
    if cmds.Some? {
      FeedFrame(s.(ds := r.ds), db, cmds.value, Drifts(eng, r.argv, now, fedAt),
                NewSkew(eng, s.ds, r.ds, db, r.argv, s.skew, now, fedAt),
                NewSkew(eng, s.ds, r.ds, db, r.argv, ChildSkew(s), now, fedAt));
    }
  }

  lemma MarkerFrame(eng: Engine, s: Server, db: nat, argv: Argv)
    requires argv != []
    ensures var s' := DoMarker(eng, s, db, argv); s'.pipe == s.pipe && s'.ds == s.ds && s'.dead == s.dead
  {
    hide Feed;
    FeedFrame(s.(inMulti := eng.kindOf(argv[0]) == MultiCmd), db, [argv], false, s.skew, ChildSkew(s));
  }

  lemma FlushFrame(s: Server, force: bool, env: Env)
    ensures var s' := DoFlush(s, force, env);
            && s'.ds == s.ds && s'.pipe == s.pipe
            && (!s'.damaged ==> !s.damaged && s'.out.file <= s.out.file + s.out.buf)
  {
    hide Flush;
    hide BadUndo;
    NoBadUndoAppends(s.out, force, env);
  }

  lemma ForkFrame(eng: Engine, s: Server, dump: Dump, n: nat)
    requires GoodDump(eng, dump, n)
    ensures var s' := DoFork(eng, s, dump, n); s'.ds == s.ds && s'.dead == s.dead && !s'.stopSending
  {
    hide RewriteCommands;
    hide EncodeAll;
  }

  lemma SwitchKeepsDs(s: Server, statOk: bool)
    requires s.child.Some?
    ensures DoSwitch(s, statOk).ds == s.ds
  {
    hide SwitchedOut;
  }

  lemma SwitchLives(s: Server, statOk: bool)
    requires s.child.Some?
    ensures DoSwitch(s, statOk).dead == s.dead
  {
    hide SwitchedOut;
  }

  lemma Frames()
    ensures forall s: Server :: Cleanup(s).ds == s.ds && Cleanup(s).dead == s.dead && Cleanup(s).child == None
  {
    forall s: Server ensures Cleanup(s).ds == s.ds && Cleanup(s).dead == s.dead && Cleanup(s).child == None {
      CleanupIs(s);
    }
  }

  lemma OthersKeepPipe(eng: Engine, n: nat, s: Server, e: Event)
    requires n >= 1 && !s.dead && s.child.Some? && s.stopSending && !e.ChildRead? && !e.ChildFinish?
    ensures var s' := Next(eng, n, s, e); s'.child.Some? && s'.stopSending ==> s'.pipe == s.pipe
  {
    hide DoCall;
    hide DoMarker;
    hide DoFlush;
    hide DoFork;
    hide DoSwitch;
    hide Cleanup;
    hide GoodDump;
    Frames();
    if e.Call? && e.argv != [] {
      CallFrame(eng, s, e.db, e.argv, e.now, e.fedAt, e.force);
    } else if e.Marker? && e.argv != [] {
      MarkerFrame(eng, s, e.db, e.argv);
    } else if e.FlushOut? {
      FlushFrame(s, e.force, e.env);
    } else if e.StopAof? {
      FlushFrame(s, true, e.env);
    } else if (e.Fork? || e.StartAof?) && GoodDump(eng, e.dump, n) {
      ForkFrame(eng, s, e.dump, n);
      ForkFrame(eng, Cleanup(s), e.dump, n);
    }
  }

  /** Once the parent has agreed to stop, no event puts anything into the pipe: what is in it
      afterwards is the end of what was in it before. */
  lemma NothingSentAfterStop(eng: Engine, n: nat, s: Server, e: Event)
    requires n >= 1 && s.child.Some? && s.stopSending
    ensures var s' := Next(eng, n, s, e);
            s'.child.Some? && s'.stopSending ==>
              |s'.pipe| <= |s.pipe| && s'.pipe == s.pipe[|s.pipe| - |s'.pipe|..]
  {
    hide DoCall;
    hide DoMarker;
    hide DoFlush;
    hide DoFork;
    hide DoSwitch;
    hide GoodDump;
    if !s.dead && !e.ChildRead? && !e.ChildFinish? {
      OthersKeepPipe(eng, n, s, e);
    }
  }

  // ----- a rewrite can always start -------------------------------------------

  lemma PipeEventsKeepDs(eng: Engine, n: nat, s: Server, e: Event)
    requires n >= 1 && (e.ParentSend? || e.ChildRead? || e.ChildAsk? || e.ParentAck? || e.ChildFinish? || e.KillChild?)
    ensures Next(eng, n, s, e).ds == s.ds
  {
    hide DoCall;
    hide DoMarker;
    hide DoFlush;
    hide DoFork;
    hide DoSwitch;
    hide Cleanup;
    hide GoodDump;
    CleanupIs(s);
  }

  lemma FlushEventsKeepDs(eng: Engine, n: nat, s: Server, e: Event)
    requires n >= 1 && (e.FlushOut? || e.StopAof? || e.Marker?)
    ensures Next(eng, n, s, e).ds == s.ds
  {
    hide DoCall;
    hide DoMarker;
    hide DoFlush;
    hide DoFork;
    hide DoSwitch;
    hide Cleanup;
    hide GoodDump;
    Frames();
    match e
    case Marker(db, argv) => if argv != [] { MarkerFrame(eng, s, db, argv); }
    case FlushOut(force, env) => FlushFrame(s, force, env);
    case StopAof(env) => FlushFrame(s, true, env);
  }

  lemma ForkKeepsDs(eng: Engine, n: nat, s: Server, dump: Dump)
    requires n >= 1
    ensures Next(eng, n, s, Fork(dump)).ds == s.ds
  {
    hide DoCall;
    hide DoMarker;
    hide DoFlush;
    hide DoFork;
    hide DoSwitch;
    hide Cleanup;
    hide GoodDump;
    hide Enumerates;
    if GoodDump(eng, dump, n) {
      ForkFrame(eng, s, dump, n);
    }
  }

  lemma StartKeepsDs(eng: Engine, n: nat, s: Server, openOk: bool, otherChild: bool, forkOk: bool, dump: Dump)
    requires n >= 1
    ensures Next(eng, n, s, StartAof(openOk, otherChild, forkOk, dump)).ds == s.ds
  {
    hide DoCall;
    hide DoMarker;
    hide DoFlush;
    hide DoFork;
    hide DoSwitch;
    hide Cleanup;
    hide GoodDump;
    hide Enumerates;
    CleanupIs(s);
    if GoodDump(eng, dump, n) {
      ForkFrame(eng, Cleanup(s), dump, n);
    }
  }

  lemma ExitKeepsDs(eng: Engine, n: nat, s: Server, e: Event)
    requires n >= 1 && e.ChildExit?
    ensures Next(eng, n, s, e).ds == s.ds
  {
    hide DoCall;
    hide DoMarker;
    hide DoFlush;
    hide DoFork;
    hide DoSwitch;
    hide Cleanup;
    hide GoodDump;
    Frames();
    if s.child.Some? {
      SwitchKeepsDs(s, e.statOk);
    }
  }

  /** Only commands change the dataset. */
  lemma OthersKeepDs(eng: Engine, n: nat, s: Server, e: Event)
    requires n >= 1 && !e.Call?
    ensures Next(eng, n, s, e).ds == s.ds
  {
    hide Next;
    if e.FlushOut? || e.StopAof? || e.Marker? {
      FlushEventsKeepDs(eng, n, s, e);
    } else if e.Fork? {
      ForkKeepsDs(eng, n, s, e.dump);
    } else if e.StartAof? {
      StartKeepsDs(eng, n, s, e.openOk, e.otherChild, e.forkOk, e.dump);
    } else if e.ChildExit? {
      ExitKeepsDs(eng, n, s, e);
    } else {
      PipeEventsKeepDs(eng, n, s, e);
    }
  }

  lemma NextKeepsDataset(eng: Engine, n: nat, s: Server, e: Event)
    requires n >= 1 && EngineKeeps(eng) && DatasetOk(eng, s.ds)
    ensures DatasetOk(eng, Next(eng, n, s, e).ds)
  {
    hide DatasetOk;
    hide EngineKeeps;
    if !e.Call? {
      hide Next;
      OthersKeepDs(eng, n, s, e);
    } else {
      hide DoCall;
      hide Execute;
      if e.argv != [] && e.db < eng.dbnum {
        CallFrame(eng, s, e.db, e.argv, e.now, e.fedAt, e.force);
        ExecuteKeeps(eng, false, e.now, e.force, s.ds, e.db, e.argv);
      }
    }
  }

  lemma {:induction false} RunKeepsDataset(eng: Engine, n: nat, s: Server, events: seq<Event>)
    requires n >= 1 && EngineKeeps(eng) && DatasetOk(eng, s.ds)
    ensures DatasetOk(eng, Run(eng, n, s, events).ds)
    decreases |events|
  {
    hide Next;
    hide DatasetOk;
    hide EngineKeeps;
    if events != [] {
      NextKeepsDataset(eng, n, s, events[0]);
      RunKeepsDataset(eng, n, Next(eng, n, s, events[0]), events[1..]);
    }
  }

  /** In every reachable state there is a dump a fork can work on: nothing the modelled commands do
      leaves an empty aggregate behind. */
  lemma ForkIsPossible(eng: Engine, n: nat, s: Server, events: seq<Event>) returns (dump: Dump)
    requires n >= 1 && eng.dbnum <= LLONG_MAX && EngineKeeps(eng) && DatasetOk(eng, s.ds)
    ensures GoodDump(eng, dump, n) && Enumerates(eng, dump, Run(eng, n, s, events).ds)
  {
    hide Run;
    hide DatasetOk;
    hide EngineKeeps;
    RunKeepsDataset(eng, n, s, events);
    dump := DumpExists(eng, Run(eng, n, s, events).ds);
  }
}
