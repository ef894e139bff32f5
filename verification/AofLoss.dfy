/**
  A run of the append only file protocol in which data is lost: after a switch of files whose fstat
  failed, a short write is undone with the size of the old file.
 */
module AofLoss {
  import opened Decimal
  import opened Resp
  import opened Text
  import opened Store
  import opened AofFeed
  import opened AofSkew
  import opened AofRewrite
  import opened AofLoad
  import opened AofFlush
  import opened AofDump
  import opened AofProtocol

  function SetCommand(key: Bytes, val: Bytes): Argv {
    ["SET", key, val]
  }

  function Single(key: Bytes, val: Bytes): Dataset {
    map[Key(0, key) := Entry(Str(val), -1)]
  }

  function SetBytes(key: Bytes, val: Bytes): Bytes {
    EncodeAll(Fed(-1, 0, [SetCommand(key, val)]))
  }

  /** SET a x; a rewrite whose switch cannot stat the new file; SET b y; and a flush whose short write
      is undone with the old size. */
  function LossyRun(dump: Dump): seq<Event> {
    [Call(0, SetCommand("a", "x"), 0, 0, false), Fork(dump), ChildAsk, ParentAck(true, true), ChildFinish,
     ChildExit(true, true, true, true, false), Call(0, SetCommand("b", "y"), 0, 0, false),
     FlushOut(true, SHORT)]
  }

  /** One byte is written, then an error; ftruncate works. */
  const SHORT: Env := Env(FsyncNo, 0, false, false, [Wrote(1)], true)

  // ----- single steps ---------------------------------------------------------

  lemma PlainSet(eng: Engine, ds: Dataset, key: Bytes, val: Bytes)
    requires KnowsNames(eng)
    ensures Execute(eng, false, 0, false, ds, 0, SetCommand(key, val)) ==
            Outcome(ds[Key(0, key) := Entry(Str(val), -1)], true, SetCommand(key, val))
    ensures Translate(eng, SetCommand(key, val), 0) == Some([SetCommand(key, val)])
    ensures !Drifts(eng, SetCommand(key, val), 0, 0)
  {
    hide Wrap;
    hide Strict;
    assert SetCommand(key, val)[3..] == [];
    NoSetOptions();
  }

  lemma CallSet(eng: Engine, n: nat, s: Server, key: Bytes, val: Bytes)
    requires n >= 1 && KnowsNames(eng) && eng.dbnum > 0 && !s.dead && s.aofState == On && s.child.None? && s.selected == -1
    requires s.skew == map[]
    ensures Next(eng, n, s, Call(0, SetCommand(key, val), 0, 0, false)) ==
            s.(ds := s.ds[Key(0, key) := Entry(Str(val), -1)], selected := 0,
               out := s.out.(buf := s.out.buf + SetBytes(key, val)))
  {
    hide Execute;
    hide Translate;
    hide Drifts;
    hide EncodeAll;
    PlainSet(eng, s.ds, key, val);
    StaysUnskewed(eng, s.ds, s.ds[Key(0, key) := Entry(Str(val), -1)], 0, SetCommand(key, val), 0, 0);
    hide NewSkew;
  }

  lemma ForkStep(eng: Engine, n: nat, s: Server, dump: Dump)
    requires !s.dead && s.child.None? && s.pipe == "" && !s.stopSending && !s.ackSent
    requires GoodDump(eng, dump, n) && Enumerates(eng, dump, s.ds)
    ensures Next(eng, n, s, Fork(dump)) ==
            s.(child := Some(Child(EncodeAll(RewriteCommands(eng, dump, n)), "", Working, "", false, map[])), selected := -1)
  {
    hide EncodeAll;
    hide Enumerates;
    hide DumpOk;
    hide RewriteCommands;
  }

  lemma AskStep(eng: Engine, n: nat, s: Server, c: Child)
    requires n >= 1 && !s.dead && s.child == Some(c) && c.phase == Working
    ensures Next(eng, n, s, ChildAsk) == s.(child := Some(c.(phase := Asked)))
  {
  }

  lemma AckStep(eng: Engine, n: nat, s: Server, c: Child)
    requires n >= 1 && !s.dead && s.child == Some(c) && c.phase == Asked && !s.stopSending
    ensures Next(eng, n, s, ParentAck(true, true)) == s.(stopSending := true, ackSent := true)
  {
  }

  lemma FinishStep(eng: Engine, n: nat, s: Server, c: Child)
    requires n >= 1 && !s.dead && s.child == Some(c) && c.phase == Asked && s.ackSent && s.pipe == ""
    ensures Next(eng, n, s, ChildFinish) == s.(child := Some(c.(phase := Finished)))
  {
    assert c.diff + "" == c.diff;
  }

  lemma ExitStep(eng: Engine, n: nat, s: Server, c: Child)
    requires n >= 1 && !s.dead && s.child == Some(c) && c.phase == Finished && c.diff == "" && s.aofState == On
    requires s.blocks == "" && s.pipe == "" && s.selected == -1 && !c.drifted && c.skew == map[] && !s.damaged
    ensures Next(eng, n, s, ChildExit(true, true, true, true, false)) ==
            s.(child := None, stopSending := false, ackSent := false, statFailed := true, drifted := false, skew := map[],
               out := s.out.(file := c.base, fsyncOffset := s.out.size, buf := ""))
  {
    assert c.base + "" + "" == c.base;
  }

  lemma FlushStep(eng: Engine, n: nat, s: Server)
    requires n >= 1 && !s.dead && s.aofState == On && |s.out.buf| > 1 && s.out.size == 0
    ensures var s' := Next(eng, n, s, FlushOut(true, SHORT));
            s' == s.(out := s'.out, damaged := s'.damaged) && s'.out.file == "" && s'.out.buf == s.out.buf
  {
    ShortWrite(|s.out.buf|);
    hide WriteAll;
  }

  lemma ShortWrite(len: nat)
    requires len > 1
    ensures WriteAll(len, 0, [Wrote(1)]) == 1
  {
    assert [Wrote(1)][1..] == [];
  }

  // ----- the run --------------------------------------------------------------

  function Blank(ds: Dataset): Server {
    Server(ds, false, On, Output("", "", 0, 0, 0, 0, true, 0), -1, None, "", "", false, false, false, false, false, map[], false)
  }

  lemma BlankIsStarted()
    ensures Started([], map[], None) == Blank(map[]) && EncodeAll([]) == ""
  {
  }

  /** After SET a x, before the rewrite. */
  function Written(): Server {
    Blank(Single("a", "x")).(selected := 0, out := Output("", SetBytes("a", "x"), 0, 0, 0, 0, true, 0))
  }

  /** After the rewrite: the file is the new one, the recorded size still that of the old one. */
  function Switched(base: Bytes): Server {
    Blank(Single("a", "x")).(out := Output(base, "", 0, 0, 0, 0, true, 0), statFailed := true)
  }

  lemma LossyStart(eng: Engine, n: nat, dump: Dump)
    requires GoodEngine(eng) && n >= 1
    ensures Run(eng, n, Started([], map[], None), LossyRun(dump)) == Run(eng, n, Written(), LossyRun(dump)[1..])
  {
    hide Run;
    hide Next;
    hide SetBytes;
    var es := LossyRun(dump);
    BlankIsStarted();
    CallSet(eng, n, Blank(map[]), "a", "x");
    assert "" + SetBytes("a", "x") == SetBytes("a", "x");
    assert es[0..] == es;
    RunTo(eng, n, Blank(map[]), es, 0, Written());
  }

  lemma LossyRewrite(eng: Engine, n: nat, dump: Dump)
    requires GoodDump(eng, dump, n) && Enumerates(eng, dump, Single("a", "x"))
    ensures Run(eng, n, Written(), LossyRun(dump)[1..]) ==
            Run(eng, n, Switched(EncodeAll(RewriteCommands(eng, dump, n))), LossyRun(dump)[6..])
  {
    hide Run;
    hide Next;
    hide EncodeAll;
    hide Enumerates;
    hide DumpOk;
    hide NoEmptyAggregate;
    hide RewriteCommands;
    hide SetBytes;
    var es := LossyRun(dump);
    var c := Child(EncodeAll(RewriteCommands(eng, dump, n)), "", Working, "", false, map[]);
    var s1 := Written();
    var s2 := s1.(child := Some(c), selected := -1);
    ForkStep(eng, n, s1, dump);
    RunTo(eng, n, s1, es, 1, s2);
    var s3 := s2.(child := Some(c.(phase := Asked)));
    AskStep(eng, n, s2, c);
    RunTo(eng, n, s2, es, 2, s3);
    var s4 := s3.(stopSending := true, ackSent := true);
    AckStep(eng, n, s3, s3.child.value);
    RunTo(eng, n, s3, es, 3, s4);
    var s5 := s4.(child := Some(c.(phase := Finished)));
    FinishStep(eng, n, s4, s4.child.value);
    RunTo(eng, n, s4, es, 4, s5);
    ExitStep(eng, n, s5, s5.child.value);
    RunTo(eng, n, s5, es, 5, Switched(c.base));
  }

  /** After SET b y, before the flush. */
  function Rewritten(base: Bytes): Server {
    Blank(Single("a", "x")[Key(0, "b") := Entry(Str("y"), -1)])
      .(selected := 0, out := Output(base, SetBytes("b", "y"), 0, 0, 0, 0, true, 0), statFailed := true)
  }

  lemma AddsBytes(base: Bytes)
    ensures var s := Switched(base);
            Rewritten(base) == s.(ds := s.ds[Key(0, "b") := Entry(Str("y"), -1)], selected := 0,
                                  out := s.out.(buf := s.out.buf + SetBytes("b", "y")))
  {
    hide SetBytes;
    assert "" + SetBytes("b", "y") == SetBytes("b", "y");
  }

  lemma LossyCall(eng: Engine, n: nat, dump: Dump, base: Bytes)
    requires GoodEngine(eng) && n >= 1
    ensures Run(eng, n, Switched(base), LossyRun(dump)[6..]) == Run(eng, n, Rewritten(base), LossyRun(dump)[7..])
  {
    hide Run;
    hide Next;
    hide SetBytes;
    hide KnowsNames;
    CallSet(eng, n, Switched(base), "b", "y");
    AddsBytes(base);
    hide Switched;
    hide Rewritten;
    RunTo(eng, n, Switched(base), LossyRun(dump), 6, Rewritten(base));
  }

  lemma LossyEnd(eng: Engine, n: nat, dump: Dump, base: Bytes)
    requires GoodEngine(eng) && n >= 1
    ensures var s := Run(eng, n, Switched(base), LossyRun(dump)[6..]);
            && !s.dead && s.aofState == On && !s.inMulti
            && s.ds == Single("a", "x")[Key(0, "b") := Entry(Str("y"), -1)]
            && s.out.file == "" && s.out.buf == SetBytes("b", "y")
  {
    hide Run;
    hide Next;
    hide SetBytes;
    LossyCall(eng, n, dump, base);
    var es, s7 := LossyRun(dump), Rewritten(base);
    LongEnough();
    FlushStep(eng, n, s7);
    var s8 := Next(eng, n, s7, es[7]);
    RunTo(eng, n, s7, es, 7, s8);
    assert es[8..] == [];
    RunNoEvents(eng, n, s8);
  }

  lemma LongEnough()
    ensures |SetBytes("b", "y")| > 1
  {
    var cmds := Fed(-1, 0, [SetCommand("b", "y")]);
    assert cmds[0] == SelectCommand(0);
    assert |Encode(cmds[0])| > 1;
  }

  lemma EmptyTracks(eng: Engine)
    ensures Tracks(eng, "", map[], -1, false) && ReplaysTo(eng, [], map[])
  {
    BlankIsStarted();
    assert LogTracks(eng, [], map[], -1, false);
  }

  /** The bytes of SET b y alone load to b alone. */
  lemma SecondLoads(eng: Engine, t: int)
    requires GoodEngine(eng)
    ensures Load(eng, t, SetBytes("b", "y"), true, true) == Loaded(Single("b", "y"), |SetBytes("b", "y")|)
  {
    hide Tracks;
    hide Load;
    hide Execute;
    hide Translate;
    hide Drifts;
    hide KnowsNames;
    hide EncodeAll;
    hide Shifted;
    hide NewSkew;
    EmptyTracks(eng);
    PlainSet(eng, map[], "b", "y");
    NotShifted(map[]);
    NotShifted(Single("b", "y"));
    StaysUnskewed(eng, map[], Single("b", "y"), 0, SetCommand("b", "y"), 0, 0);
    CallTracks(eng, "", Blank(map[]), map[], 0, SetCommand("b", "y"), 0, 0, false);
    assert "" + SetBytes("b", "y") == SetBytes("b", "y");
    TrackedBytesLoad(eng, t, SetBytes("b", "y"), Single("b", "y"), 0);
    LongEnough();
  }

  /** Data is lost in a run from an empty server: both keys are in memory, the log is on, and loading
      what file and buffer hold gives the second key only. */
  lemma FailedStatLosesData(eng: Engine, n: nat, t: int) returns (dump: Dump)
    requires GoodEngine(eng) && n >= 1
    ensures ReplaysTo(eng, [], map[])
    ensures var s := Run(eng, n, Started([], map[], None), LossyRun(dump));
            var bytes := s.out.file + s.out.buf;
            && !s.dead && s.aofState == On && !s.inMulti
            && s.ds == Single("a", "x")[Key(0, "b") := Entry(Str("y"), -1)]
            && Load(eng, t, bytes, true, true) == Loaded(Single("b", "y"), |bytes|)
  {
    hide Run;
    hide SetBytes;
    hide EncodeAll;
    hide Load;
    hide Enumerates;
    hide ReplaysTo;
    hide KnowsNames;
    EmptyTracks(eng);
    dump := DumpExists(eng, Single("a", "x"));
    LossyStart(eng, n, dump);
    LossyRewrite(eng, n, dump);
    LossyEnd(eng, n, dump, EncodeAll(RewriteCommands(eng, dump, n)));
    SecondLoads(eng, t);
    assert "" + SetBytes("b", "y") == SetBytes("b", "y");
  }
}
