/**
  feedAppendOnlyFile: which commands reach the file for a command that took effect. Relative
  times to live become absolute PEXPIREAT commands.
 */
module AofFeed {
  import opened Decimal
  import opened Resp
  import opened Text
  import opened Store

  // ----- the translation ----------------------------------------------------

  predicate InSeconds(kind: Kind) {
    kind in {ExpireCmd, SetexCmd, ExpireatCmd}
  }

  predicate IsRelative(kind: Kind) {
    kind in {ExpireCmd, PexpireCmd, SetexCmd, PsetexCmd}
  }

  /** The absolute time computed by catAppendOnlyExpireAtCommand. */
  function When(kind: Kind, param: Bytes, now: int): int {
    var w := Strtol(param);
    var ms := if InSeconds(kind) then Wrap(w * 1000) else w;
    if IsRelative(kind) then Wrap(ms + now) else ms
  }

  function Pexpireat(key: Bytes, when: int): Argv {
    ["PEXPIREAT", key, PrintInt(when)]
  }

  /** The scan of SET's trailing arguments: the argument after the last occurrence of word. It
      looks at every position, also at those that hold an option's value. */
  function ScanOption(args: Argv, word: Bytes, cur: Option<Bytes>): Option<Bytes> {
    if args == [] then cur
    else ScanOption(args[1..], word, if Is(args[0], word) && |args| >= 2 then Some(args[1]) else cur)
  }

  /** The commands written for one propagated command; None is the failing assertion that a
      SET cannot carry both EX and PX. */
  function Translate(eng: Engine, argv: Argv, now: int): (r: Option<seq<Argv>>)
    requires argv != []
    ensures r.Some? ==> Commands(r.value)
  {
    var kind := eng.kindOf(argv[0]);
    if kind in {ExpireCmd, PexpireCmd, ExpireatCmd} && |argv| >= 3 then
      Some([Pexpireat(argv[1], When(kind, argv[2], now))])
    else if kind in {SetexCmd, PsetexCmd} && |argv| >= 4 then
      Some([["SET", argv[1], argv[3]], Pexpireat(argv[1], When(kind, argv[2], now))])
    else if kind == SetCmd && |argv| > 3 then
      var ex := ScanOption(argv[3..], "ex", None);
      var px := ScanOption(argv[3..], "px", None);
      if ex.Some? && px.Some? then None
      else if ex.Some? then Some([argv[..3], Pexpireat(argv[1], When(ExpireCmd, ex.value, now))])
      else if px.Some? then Some([argv[..3], Pexpireat(argv[1], When(PexpireCmd, px.value, now))])
      else Some([argv])
    else Some([argv])
  }

  function SelectCommand(db: nat): Argv {
    ["SELECT", Print(db)]
  }

  /** Everything fed for one command in database db when `selected` was selected last. */
  function Fed(selected: int, db: nat, cmds: seq<Argv>): seq<Argv> {
    (if db != selected then [SelectCommand(db)] else []) + cmds
  }

  // ----- SET: the scan finds what the command used --------------------------

  predicate Occurs(args: Argv, word: Bytes) {
    exists i :: 0 <= i < |args| - 1 && Is(args[i], word)
  }

  lemma {:induction false} ScanDepends(args: Argv, word: Bytes, cur: Option<Bytes>)
    ensures !Occurs(args, word) ==> ScanOption(args, word, cur) == cur
    ensures Occurs(args, word) ==> ScanOption(args, word, cur).Some?
    ensures forall c: Option<Bytes> :: Occurs(args, word) ==> ScanOption(args, word, c) == ScanOption(args, word, cur)
  {
    if args == [] {
    } else {
      var here := Is(args[0], word) && |args| >= 2;
      var next := if here then Some(args[1]) else cur;
      ScanDepends(args[1..], word, next);
      assert Occurs(args, word) <==> here || Occurs(args[1..], word) by {
        forall i | 0 <= i < |args[1..]| - 1 && Is(args[1..][i], word) ensures Occurs(args, word) {
          assert args[i + 1] == args[1..][i];
        }
        if Occurs(args, word) && !here {
          var i :| 0 <= i < |args| - 1 && Is(args[i], word);
          assert args[1..][i - 1] == args[i];
        }
      }
      forall c: Option<Bytes> | Occurs(args, word)
        ensures ScanOption(args, word, c) == ScanOption(args, word, cur)
      {
        ScanDepends(args[1..], word, if here then Some(args[1]) else c);
      }
    }
  }

  lemma WordIsNotANumber(s: Bytes, word: Bytes)
    requires Is(s, word) && (word == "ex" || word == "px")
    ensures Strict(s).NotANumber?
  {
    assert s != "" && s[0] != '\0';
    assert Lower(CStr(s))[0] == LowerChar(s[0]);
    assert LowerChar(s[0]) == word[0];
  }

  predicate ValidTtl(o: Option<Bytes>) {
    o.Some? ==> Strict(o.value).Number?
  }

  /** One option with a value: the scan continues as if it had jumped over the value. */
  lemma ScanOverValue(args: Argv, word: Bytes, cur: Option<Bytes>, r: Option<Bytes>)
    requires |args| >= 2 && (word == "ex" || word == "px")
    requires ScanOption(args[2..], word, if Is(args[0], word) then Some(args[1]) else cur) == r
    requires r.Some? && Strict(r.value).Number?
    requires Is(args[0], word)
    ensures ScanOption(args, word, cur) == r
  {
    var v := args[1];
    assert args[1..][0] == v && args[1..][1..] == args[2..];
    var c := if Is(v, word) && |args[1..]| >= 2 then Some(args[1..][1]) else Some(v);
    assert ScanOption(args, word, cur) == ScanOption(args[1..], word, Some(v)) == ScanOption(args[2..], word, c);
    ScanDepends(args[2..], word, Some(v));
    ScanDepends(args[2..], word, c);
    if !Occurs(args[2..], word) && Is(v, word) {
      WordIsNotANumber(v, word);
    }
  }

  /** The two relations between the option parser of SET and the scan of the feeder. */
  lemma {:induction false} ScanMatchesParse(args: Argv, o: SetOptions)
    requires ParseSet(args, o).Some?
    requires ValidTtl(ParseSet(args, o).value.ex) && ValidTtl(ParseSet(args, o).value.px)
    requires o.ex.None? || o.px.None?
    ensures var r := ParseSet(args, o).value;
            && (r.ex.None? || r.px.None?)
            && (r.ex.Some? ==> ScanOption(args, "ex", o.ex) == r.ex)
            && (r.px.Some? ==> ScanOption(args, "px", o.px) == r.px)
            && (r.ex.None? && r.px.None? ==>
                  ScanOption(args, "ex", o.ex) == None && ScanOption(args, "px", o.px) == None)
    decreases |args|
  {
    if args == [] {
    } else if Is(args[0], "nx") && !o.xx {
      ScanMatchesParse(args[1..], o.(nx := true));
    } else if Is(args[0], "xx") && !o.nx {
      ScanMatchesParse(args[1..], o.(xx := true));
    } else if Is(args[0], "keepttl") && o.ex.None? && o.px.None? {
      ScanMatchesParse(args[1..], o.(keepttl := true));
    } else if Is(args[0], "ex") {
      ScanMatchesParse(args[2..], o.(ex := Some(args[1])));
      TtlStays(args[2..], o.(ex := Some(args[1])));
      ScanOverValue(args, "ex", o.ex, ParseSet(args, o).value.ex);
    } else {
      ScanMatchesParse(args[2..], o.(px := Some(args[1])));
      TtlStays(args[2..], o.(px := Some(args[1])));
      ScanOverValue(args, "px", o.px, ParseSet(args, o).value.px);
    }
  }

  lemma {:induction false} TtlStays(args: Argv, o: SetOptions)
    requires ParseSet(args, o).Some?
    ensures o.ex.Some? ==> ParseSet(args, o).value.ex.Some?
    ensures o.px.Some? ==> ParseSet(args, o).value.px.Some?
    decreases |args|
  {
    if args == [] {
    } else if Is(args[0], "nx") && !o.xx {
      TtlStays(args[1..], o.(nx := true));
    } else if Is(args[0], "xx") && !o.nx {
      TtlStays(args[1..], o.(xx := true));
    } else if Is(args[0], "keepttl") && o.ex.None? && o.px.None? {
      TtlStays(args[1..], o.(keepttl := true));
    } else if Is(args[0], "ex") {
      TtlStays(args[2..], o.(ex := Some(args[1])));
    } else {
      TtlStays(args[2..], o.(px := Some(args[1])));
    }
  }

  // ----- replaying the translation ------------------------------------------

  /** PEXPIREAT with a printed 64 bit time, at load time, sets exactly that expire. */
  lemma RunPexpireat(eng: Engine, t: int, s: Session, key: Bytes, when: int)
    requires KnowsNames(eng) && LLONG_MIN <= when <= LLONG_MAX && Key(s.db, key) in s.ds
    ensures var k := Key(s.db, key);
            RunOne(eng, t, s, Pexpireat(key, when)) == s.(ds := s.ds[k := s.ds[k].(expire := when)])
  {
    StrictPrintInt(when);
  }

  /** SET key value followed by PEXPIREAT rebuilds a string with that expire. */
  lemma RunSetThenExpire(eng: Engine, t: int, s: Session, set3: Argv, when: int)
    requires KnowsNames(eng) && |set3| == 3 && eng.kindOf(set3[0]) == SetCmd && LLONG_MIN <= when <= LLONG_MAX
    ensures RunAll(eng, t, s, [set3, Pexpireat(set3[1], when)]) ==
            s.(ds := s.ds[Key(s.db, set3[1]) := Entry(Str(set3[2]), when)])
  {
    var cmds := [set3, Pexpireat(set3[1], when)];
    assert set3[3..] == [];
    var s1 := RunOne(eng, t, s, set3);
    assert s1 == s.(ds := s.ds[Key(s.db, set3[1]) := Entry(Str(set3[2]), -1)]);
    assert cmds[1..] == [Pexpireat(set3[1], when)];
    RunAllOne(eng, t, s1, cmds[1]);
    RunPexpireat(eng, t, s1, set3[1], when);
  }

  /** What Execute does for a SET that took effect, in terms of the parsed options. */
  lemma SetEffect(eng: Engine, now: int, force: bool, ds: Dataset, db: nat, argv: Argv)
    requires argv != [] && eng.kindOf(argv[0]) == SetCmd
    requires Execute(eng, false, now, force, ds, db, argv).dirty
    ensures |argv| >= 3 && ParseSet(argv[3..], NO_OPTIONS).Some?
    ensures var o := ParseSet(argv[3..], NO_OPTIONS).value;
            var r := Execute(eng, false, now, force, ds, db, argv);
            && r.argv == argv
            && ValidTtl(o.ex) && ValidTtl(o.px)
            && (o.ex.None? && o.px.None? ==> forall t: int :: Execute(eng, true, t, false, ds, db, argv).ds == r.ds)
            && (o.ex.Some? ==> r.ds == ds[Key(db, argv[1]) := Entry(Str(argv[2]), When(ExpireCmd, o.ex.value, now))])
            && (o.px.Some? ==> r.ds == ds[Key(db, argv[1]) := Entry(Str(argv[2]), When(PexpireCmd, o.px.value, now))])
  {
    var o := ParseSet(argv[3..], NO_OPTIONS).value;
    OneTtl(argv[3..], NO_OPTIONS);
    if o.ex.Some? { StrictAgreesWithStrtol(o.ex.value); }
    if o.px.Some? { StrictAgreesWithStrtol(o.px.value); }
  }

  lemma {:induction false} OneTtl(args: Argv, o: SetOptions)
    requires ParseSet(args, o).Some? && (o.ex.None? || o.px.None?)
    ensures var r := ParseSet(args, o).value; r.ex.None? || r.px.None?
    decreases |args|
  {
    if args == [] {
    } else if Is(args[0], "nx") && !o.xx {
      OneTtl(args[1..], o.(nx := true));
    } else if Is(args[0], "xx") && !o.nx {
      OneTtl(args[1..], o.(xx := true));
    } else if Is(args[0], "keepttl") && o.ex.None? && o.px.None? {
      OneTtl(args[1..], o.(keepttl := true));
    } else if Is(args[0], "ex") {
      OneTtl(args[2..], o.(ex := Some(args[1])));
    } else {
      OneTtl(args[2..], o.(px := Some(args[1])));
    }
  }

  lemma RunOneIsExecute(eng: Engine, t: int, s: Session, argv: Argv)
    requires argv != [] && eng.kindOf(argv[0]) != SelectCmd
    ensures RunOne(eng, t, s, argv) == s.(ds := Execute(eng, true, t, false, s.ds, s.db, argv).ds)
  {
    hide Execute;
  }

  lemma NoSetOptions()
    ensures ParseSet([], NO_OPTIONS) == Some(NO_OPTIONS)
  {
  }

  lemma WhenFits(now: int)
    ensures forall kind: Kind, param: Bytes :: IsRelative(kind) ==> LLONG_MIN <= When(kind, param, now) <= LLONG_MAX
  {
  }

  lemma SetSound(eng: Engine, now: int, force: bool, ds: Dataset, db: nat, argv: Argv, t: int)
    requires KnowsNames(eng) && argv != [] && eng.kindOf(argv[0]) == SetCmd
    requires Execute(eng, false, now, force, ds, db, argv).dirty
    requires Translate(eng, argv, now).Some?
    ensures RunAll(eng, t, Session(ds, db), Translate(eng, argv, now).value) ==
            Session(Execute(eng, false, now, force, ds, db, argv).ds, db)
  {
    hide Execute;
    hide ParseSet;
    hide ScanOption;
    hide When;
    hide KnowsNames;
    hide Strict;
    SetEffect(eng, now, force, ds, db, argv);
    var o := ParseSet(argv[3..], NO_OPTIONS).value;
    var s := Session(ds, db);
    ScanMatchesParse(argv[3..], NO_OPTIONS);
    WhenFits(now);
    NoSetOptions();
    assert |argv| == 3 ==> argv[3..] == [];
    if o.ex.Some? {
      RunSetThenExpire(eng, t, s, argv[..3], When(ExpireCmd, o.ex.value, now));
    } else if o.px.Some? {
      RunSetThenExpire(eng, t, s, argv[..3], When(PexpireCmd, o.px.value, now));
    } else {
      assert Translate(eng, argv, now).value == [argv];
      RunAllOne(eng, t, s, argv);
      RunOneIsExecute(eng, t, s, argv);
    }
  }

  /** The time the command used is the time the feeder computes. */
  lemma ExpireEffect(eng: Engine, now: int, force: bool, ds: Dataset, db: nat, argv: Argv)
    requires argv != [] && eng.kindOf(argv[0]) in {ExpireCmd, PexpireCmd, ExpireatCmd, PexpireatCmd}
    requires Execute(eng, false, now, force, ds, db, argv).dirty
    ensures |argv| == 3 && Strict(argv[2]).Number? && Key(db, argv[1]) in ds
    ensures var k := Key(db, argv[1]);
            var when := When(eng.kindOf(argv[0]), argv[2], now);
            && LLONG_MIN <= when <= LLONG_MAX
            && Execute(eng, false, now, force, ds, db, argv) ==
               if when <= now then Outcome(ds - {k}, true, [if eng.lazyExpire then "UNLINK" else "DEL", argv[1]])
               else Outcome(ds[k := ds[k].(expire := when)], true, argv)
  {
    StrictAgreesWithStrtol(argv[2]);
  }

  lemma RunDel(eng: Engine, t: int, s: Session, key: Bytes, name: Bytes)
    requires KnowsNames(eng) && (name == "DEL" || name == "UNLINK")
    ensures RunOne(eng, t, s, [name, key]) == s.(ds := s.ds - {Key(s.db, key)})
  {
    var argv := [name, key];
    assert argv[1..] == [key];
    assert (set k | k in argv[1..] :: Key(s.db, k)) == {Key(s.db, key)};
  }

  lemma RunPexpireatRaw(eng: Engine, t: int, s: Session, argv: Argv, now: int)
    requires |argv| == 3 && eng.kindOf(argv[0]) == PexpireatCmd
    requires Strict(argv[2]).Number? && Key(s.db, argv[1]) in s.ds
    ensures var k := Key(s.db, argv[1]);
            RunOne(eng, t, s, argv) ==
            s.(ds := s.ds[k := s.ds[k].(expire := When(PexpireatCmd, argv[2], now))])
  {
    StrictAgreesWithStrtol(argv[2]);
  }

  lemma ExpireSound(eng: Engine, now: int, force: bool, ds: Dataset, db: nat, argv: Argv, t: int)
    requires KnowsNames(eng)
    requires argv != [] && eng.kindOf(argv[0]) in {ExpireCmd, PexpireCmd, ExpireatCmd, PexpireatCmd}
    requires Execute(eng, false, now, force, ds, db, argv).dirty
    ensures var r := Execute(eng, false, now, force, ds, db, argv);
            && Translate(eng, r.argv, now).Some?
            && RunAll(eng, t, Session(ds, db), Translate(eng, r.argv, now).value) == Session(r.ds, db)
  {
    hide Execute;
    hide When;
    hide Wrap;
    var s := Session(ds, db);
    ExpireEffect(eng, now, force, ds, db, argv);
    var when := When(eng.kindOf(argv[0]), argv[2], now);
    if when <= now {
      var name := if eng.lazyExpire then "UNLINK" else "DEL";
      RunDel(eng, t, s, argv[1], name);
      RunAllOne(eng, t, s, [name, argv[1]]);
    } else if eng.kindOf(argv[0]) == PexpireatCmd {
      RunAllOne(eng, t, s, argv);
      RunPexpireatRaw(eng, t, s, argv, now);
    } else {
      RunPexpireat(eng, t, s, argv[1], when);
      RunAllOne(eng, t, s, Pexpireat(argv[1], when));
    }
  }

  lemma SetexEffect(eng: Engine, now: int, force: bool, ds: Dataset, db: nat, argv: Argv)
    requires argv != [] && eng.kindOf(argv[0]) in {SetexCmd, PsetexCmd}
    requires Execute(eng, false, now, force, ds, db, argv).dirty
    ensures |argv| == 4
    ensures var when := When(eng.kindOf(argv[0]), argv[2], now);
            && LLONG_MIN <= when <= LLONG_MAX
            && Execute(eng, false, now, force, ds, db, argv) ==
               Outcome(ds[Key(db, argv[1]) := Entry(Str(argv[3]), when)], true, argv)
  {
    StrictAgreesWithStrtol(argv[2]);
  }

  lemma SetexSound(eng: Engine, now: int, force: bool, ds: Dataset, db: nat, argv: Argv, t: int)
    requires KnowsNames(eng) && argv != [] && eng.kindOf(argv[0]) in {SetexCmd, PsetexCmd}
    requires Execute(eng, false, now, force, ds, db, argv).dirty
    ensures Translate(eng, argv, now).Some?
    ensures RunAll(eng, t, Session(ds, db), Translate(eng, argv, now).value) ==
            Session(Execute(eng, false, now, force, ds, db, argv).ds, db)
  {
    hide Execute;
    hide When;
    hide RunAll;
    SetexEffect(eng, now, force, ds, db, argv);
    RunSetThenExpire(eng, t, Session(ds, db), ["SET", argv[1], argv[3]], When(eng.kindOf(argv[0]), argv[2], now));
  }

  /** Main result: with one clock reading for the command and its feeding, replaying what was
      fed, at any load time t, has exactly the effect the command had. */
  lemma TranslateSound(eng: Engine, now: int, force: bool, ds: Dataset, db: nat, argv: Argv, t: int)
    requires KnowsNames(eng) && argv != []
    requires Execute(eng, false, now, force, ds, db, argv).dirty
    requires Translate(eng, Execute(eng, false, now, force, ds, db, argv).argv, now).Some?
    ensures var r := Execute(eng, false, now, force, ds, db, argv);
            RunAll(eng, t, Session(ds, db), Translate(eng, r.argv, now).value) == Session(r.ds, db)
  {
    hide Execute;
    hide Translate;
    hide RunAll;
    hide KnowsNames;
    match eng.kindOf(argv[0])
    case SetCmd => SetArgvKept(eng, now, force, ds, db, argv); SetSound(eng, now, force, ds, db, argv, t);
    case SetexCmd => SetexEffect(eng, now, force, ds, db, argv); SetexSound(eng, now, force, ds, db, argv, t);
    case PsetexCmd => SetexEffect(eng, now, force, ds, db, argv); SetexSound(eng, now, force, ds, db, argv, t);
    case ExpireCmd => ExpireSound(eng, now, force, ds, db, argv, t);
    case PexpireCmd => ExpireSound(eng, now, force, ds, db, argv, t);
    case ExpireatCmd => ExpireSound(eng, now, force, ds, db, argv, t);
    case PexpireatCmd => ExpireSound(eng, now, force, ds, db, argv, t);
    case _ => UntimedSound(eng, now, force, ds, db, argv, t);
  }

  lemma SetArgvKept(eng: Engine, now: int, force: bool, ds: Dataset, db: nat, argv: Argv)
    requires argv != [] && eng.kindOf(argv[0]) == SetCmd
    ensures Execute(eng, false, now, force, ds, db, argv).argv == argv
  {
    hide ParseSet;
    hide Strict;
    hide Wrap;
  }

  predicate IsTimed(kind: Kind) {
    kind in {SetCmd, SetexCmd, PsetexCmd, ExpireCmd, PexpireCmd, ExpireatCmd, PexpireatCmd}
  }

  lemma UntimedSound(eng: Engine, now: int, force: bool, ds: Dataset, db: nat, argv: Argv, t: int)
    requires argv != [] && !IsTimed(eng.kindOf(argv[0]))
    requires Execute(eng, false, now, force, ds, db, argv).dirty
    ensures var r := Execute(eng, false, now, force, ds, db, argv);
            && Translate(eng, r.argv, now) == Some([argv])
            && RunAll(eng, t, Session(ds, db), [argv]) == Session(r.ds, db)
  {
    hide Untimed;
    RunAllOne(eng, t, Session(ds, db), argv);
  }

  // ----- where the promise stops --------------------------------------------

  /** The assertion of the feeder fails exactly when both words stand somewhere among the
      trailing arguments with an argument behind them. */
  lemma AssertionFailsIff(eng: Engine, argv: Argv, now: int)
    requires argv != []
    ensures Translate(eng, argv, now).None? <==>
            eng.kindOf(argv[0]) == SetCmd && |argv| > 3 && Occurs(argv[3..], "ex") && Occurs(argv[3..], "px")
  {
    if |argv| > 3 {
      ScanDepends(argv[3..], "ex", None);
      ScanDepends(argv[3..], "px", None);
    }
  }

  lemma Words()
    ensures Is("EX", "ex") && Is("px", "px") && !Is("EX", "nx") && !Is("EX", "xx") && !Is("EX", "keepttl")
  {
    assert CStr("EX") == "EX" by { assert "EX"[1..] == "X" && "X"[1..] == ""; }
    assert Lower("EX") == "ex" by { assert "EX"[1..] == "X" && "X"[1..] == ""; }
    assert CStr("px") == "px" by { assert "px"[1..] == "x" && "x"[1..] == ""; }
    assert Lower("px") == "px" by { assert "px"[1..] == "x" && "x"[1..] == ""; }
  }

  lemma Ten()
    ensures Strict("10") == Number(10)
  {
    assert PrintInt(10) == "10" by { assert Print(1) == "1" && Print(10) == Print(1) + "0"; }
    StrictPrintInt(10);
  }

  lemma OccursAt(args: Argv, word: Bytes, i: nat)
    requires i < |args| - 1 && Is(args[i], word)
    ensures Occurs(args, word)
  {
  }

  /** SET k v EX px EX 10 takes effect, since a repeated EX overrides the first one unread, and
      then trips the assertion of the feeder. */
  lemma RepeatedTtlTripsAssertion(eng: Engine, ds: Dataset)
    requires KnowsNames(eng)
    ensures var argv := ["SET", "k", "v", "EX", "px", "EX", "10"];
            && Execute(eng, false, 0, false, ds, 0, argv).dirty
            && Translate(eng, argv, 0).None?
  {
    hide Is;
    hide Strict;
    hide Translate;
    hide Print;
    hide Occurs;
    hide Wrap;
    var argv := ["SET", "k", "v", "EX", "px", "EX", "10"];
    var args := argv[3..];
    Words();
    assert args == ["EX", "px", "EX", "10"] && args[2..] == ["EX", "10"] && args[2..][2..] == [];
    var o1 := NO_OPTIONS.(ex := Some("px"));
    var o2 := NO_OPTIONS.(ex := Some("10"));
    assert ParseSet(args, NO_OPTIONS) == ParseSet(args[2..], o1);
    assert ParseSet(args[2..], o1) == ParseSet([], o2) == Some(o2);
    Ten();
    OccursAt(args, "ex", 0);
    OccursAt(args, "px", 1);
    AssertionFailsIff(eng, argv, 0);
  }

  lemma WrapEqual(a: int, b: int)
    ensures Wrap(a) == Wrap(b) <==> (a - b) % 0x1_0000_0000_0000_0000 == 0
  {
    var m := 0x1_0000_0000_0000_0000;
    var x, y := a - LLONG_MIN, b - LLONG_MIN;
    assert x == m * (x / m) + x % m && y == m * (y / m) + y % m;
    if (a - b) % m == 0 {
      var q := (a - b) / m;
      assert x - y == m * q;
      assert x % m - y % m == m * (q - x / m + y / m);
    }
  }

  lemma WhenEqual(kind: Kind, param: Bytes, a: int, b: int)
    requires IsRelative(kind)
    ensures LLONG_MIN <= When(kind, param, a) <= LLONG_MAX
    ensures When(kind, param, a) == When(kind, param, b) <==> (a - b) % TWO64 == 0
  {
    var w := Strtol(param);
    var ms := if InSeconds(kind) then Wrap(w * 1000) else w;
    WrapEqual(ms + a, ms + b);
    assert ms + a - (ms + b) == a - b;
  }

  const TWO64: int := 0x1_0000_0000_0000_0000

  /** What is fed for the command depends on the clock: a relative time to live. */
  predicate HasRelativeTtl(eng: Engine, argv: Argv)
    requires argv != []
  {
    match eng.kindOf(argv[0])
    case ExpireCmd => |argv| >= 3
    case PexpireCmd => |argv| >= 3
    case SetexCmd => |argv| >= 4
    case PsetexCmd => |argv| >= 4
    case SetCmd => |argv| > 3 && (Occurs(argv[3..], "ex") || Occurs(argv[3..], "px"))
    case _ => false
  }

  lemma TranslateAnyClock(eng: Engine, argv: Argv, a: int, b: int)
    requires argv != []
    ensures Translate(eng, argv, a).Some? <==> Translate(eng, argv, b).Some?
    ensures !HasRelativeTtl(eng, argv) ==> Translate(eng, argv, a) == Translate(eng, argv, b)
  {
    hide Strtol;
    hide Wrap;
    hide ScanOption;
    hide Occurs;
    if eng.kindOf(argv[0]) == SetCmd && |argv| > 3 {
      ScanDepends(argv[3..], "ex", None);
      ScanDepends(argv[3..], "px", None);
    }
  }

  lemma ExpireDrift(eng: Engine, now: int, fedAt: int, force: bool, ds: Dataset, db: nat, argv: Argv, t: int)
    requires KnowsNames(eng) && argv != [] && eng.kindOf(argv[0]) in {ExpireCmd, PexpireCmd}
    requires var r := Execute(eng, false, now, force, ds, db, argv); r.dirty && r.argv == argv
    ensures Translate(eng, argv, fedAt).Some?
    ensures RunAll(eng, t, Session(ds, db), Translate(eng, argv, fedAt).value) ==
            Session(Execute(eng, false, now, force, ds, db, argv).ds, db)
            <==> (fedAt - now) % TWO64 == 0
  {
    hide Execute;
    hide RunAll;
    ExpireEffect(eng, now, force, ds, db, argv);
    var kind := eng.kindOf(argv[0]);
    var k := Key(db, argv[1]);
    assert When(kind, argv[2], now) > now;
    WhenEqual(kind, argv[2], fedAt, now);
    hide When;
    RunPexpireat(eng, t, Session(ds, db), argv[1], When(kind, argv[2], fedAt));
    RunAllOne(eng, t, Session(ds, db), Pexpireat(argv[1], When(kind, argv[2], fedAt)));
    assert ds[k := ds[k].(expire := When(kind, argv[2], fedAt))][k].expire == When(kind, argv[2], fedAt);
  }

  /** SET and PEXPIREAT leave the same string as in memory exactly when the times agree. */
  lemma SetDrift(eng: Engine, ds: Dataset, db: nat, set3: Argv, kind: Kind, param: Bytes, now: int, fedAt: int, t: int)
    requires KnowsNames(eng) && |set3| == 3 && eng.kindOf(set3[0]) == SetCmd && IsRelative(kind)
    ensures RunAll(eng, t, Session(ds, db), [set3, Pexpireat(set3[1], When(kind, param, fedAt))]) ==
            Session(ds[Key(db, set3[1]) := Entry(Str(set3[2]), When(kind, param, now))], db)
            <==> (fedAt - now) % TWO64 == 0
  {
    hide RunAll;
    var k := Key(db, set3[1]);
    WhenEqual(kind, param, fedAt, now);
    hide When;
    RunSetThenExpire(eng, t, Session(ds, db), set3, When(kind, param, fedAt));
    assert ds[k := Entry(Str(set3[2]), When(kind, param, fedAt))][k].expire == When(kind, param, fedAt);
    assert ds[k := Entry(Str(set3[2]), When(kind, param, now))][k].expire == When(kind, param, now);
  }

  lemma SetOptionDrift(eng: Engine, now: int, fedAt: int, force: bool, ds: Dataset, db: nat, argv: Argv, t: int)
    requires KnowsNames(eng) && argv != [] && eng.kindOf(argv[0]) == SetCmd && HasRelativeTtl(eng, argv)
    requires Execute(eng, false, now, force, ds, db, argv).dirty && Translate(eng, argv, fedAt).Some?
    ensures RunAll(eng, t, Session(ds, db), Translate(eng, argv, fedAt).value) ==
            Session(Execute(eng, false, now, force, ds, db, argv).ds, db)
            <==> (fedAt - now) % TWO64 == 0
  {
    hide Execute;
    hide ParseSet;
    hide ScanOption;
    hide Occurs;
    hide When;
    hide Strict;
    hide RunAll;
    SetEffect(eng, now, force, ds, db, argv);
    var o := ParseSet(argv[3..], NO_OPTIONS).value;
    ScanMatchesParse(argv[3..], NO_OPTIONS);
    ScanDepends(argv[3..], "ex", None);
    ScanDepends(argv[3..], "px", None);
    if o.ex.Some? {
      SetDrift(eng, ds, db, argv[..3], ExpireCmd, o.ex.value, now, fedAt, t);
    } else {
      SetDrift(eng, ds, db, argv[..3], PexpireCmd, o.px.value, now, fedAt, t);
    }
  }

  /** The feeder reads the clock again. What is fed replays to exactly what the command did if and
      only if the command carries no relative time to live or the two readings agree (as 64 bit
      numbers); this covers EXPIRE, PEXPIRE, SETEX, PSETEX and SET with EX or PX. */
  lemma RelativeNeedsSameClock(eng: Engine, now: int, fedAt: int, force: bool, ds: Dataset, db: nat, argv: Argv, t: int)
    requires KnowsNames(eng) && argv != []
    requires Execute(eng, false, now, force, ds, db, argv).dirty
    requires Translate(eng, Execute(eng, false, now, force, ds, db, argv).argv, fedAt).Some?
    ensures var r := Execute(eng, false, now, force, ds, db, argv);
            RunAll(eng, t, Session(ds, db), Translate(eng, r.argv, fedAt).value) == Session(r.ds, db)
            <==> !HasRelativeTtl(eng, r.argv) || (fedAt - now) % TWO64 == 0
  {
    hide Execute;
    hide Translate;
    hide RunAll;
    hide Occurs;
    hide When;
    hide Strict;
    var r := Execute(eng, false, now, force, ds, db, argv);
    TranslateAnyClock(eng, r.argv, now, fedAt);
    TranslateSound(eng, now, force, ds, db, argv, t);
    if HasRelativeTtl(eng, r.argv) {
      TimedArgvKept(eng, now, force, ds, db, argv);
      match eng.kindOf(argv[0])
      case SetCmd => SetOptionDrift(eng, now, fedAt, force, ds, db, argv, t);
      case ExpireCmd => ExpireDrift(eng, now, fedAt, force, ds, db, argv, t);
      case PexpireCmd => ExpireDrift(eng, now, fedAt, force, ds, db, argv, t);
      case _ => SetexDrift(eng, now, fedAt, force, ds, db, argv, t);
    }
  }

  lemma SetexDrift(eng: Engine, now: int, fedAt: int, force: bool, ds: Dataset, db: nat, argv: Argv, t: int)
    requires KnowsNames(eng) && argv != [] && eng.kindOf(argv[0]) in {SetexCmd, PsetexCmd}
    requires Execute(eng, false, now, force, ds, db, argv).dirty
    ensures Translate(eng, argv, fedAt).Some?
    ensures RunAll(eng, t, Session(ds, db), Translate(eng, argv, fedAt).value) ==
            Session(Execute(eng, false, now, force, ds, db, argv).ds, db)
            <==> (fedAt - now) % TWO64 == 0
  {
    hide Execute;
    hide When;
    hide RunAll;
    SetexEffect(eng, now, force, ds, db, argv);
    SetDrift(eng, ds, db, ["SET", argv[1], argv[3]], eng.kindOf(argv[0]), argv[2], now, fedAt, t);
  }

  /** A command that is propagated with a relative time to live is propagated as it came. */
  lemma TimedArgvKept(eng: Engine, now: int, force: bool, ds: Dataset, db: nat, argv: Argv)
    requires KnowsNames(eng) && argv != [] && Execute(eng, false, now, force, ds, db, argv).dirty
    requires HasRelativeTtl(eng, Execute(eng, false, now, force, ds, db, argv).argv)
    ensures Execute(eng, false, now, force, ds, db, argv).argv == argv
  {
    hide ParseSet;
    hide Strict;
    hide Wrap;
    hide Untimed;
  }

  // ----- SELECT and the bytes -----------------------------------------------

  lemma RunSelect(eng: Engine, t: int, s: Session, db: nat)
    requires KnowsNames(eng) && db < eng.dbnum <= LLONG_MAX
    ensures RunOne(eng, t, s, SelectCommand(db)) == s.(db := db)
  {
    StrictPrintInt(db);
  }

  /** The feeder's clock reading shifts a relative time to live. */
  predicate Drifts(eng: Engine, argv: Argv, now: int, fedAt: int)
    requires argv != []
  {
    HasRelativeTtl(eng, argv) && (fedAt - now) % TWO64 != 0
  }

  /** Feeding at clock reading fedAt moves a replayed session exactly as the command moved the
      dataset, in the database the command ran in, whatever database was selected before, if and
      only if the second reading shifts no relative time to live. */
  lemma FedSound(eng: Engine, now: int, fedAt: int, force: bool, s: Session, selected: int, db: nat, argv: Argv, t: int)
    requires KnowsNames(eng) && argv != [] && db < eng.dbnum <= LLONG_MAX
    requires selected >= 0 ==> s.db == selected
    requires Execute(eng, false, now, force, s.ds, db, argv).dirty
    requires Translate(eng, Execute(eng, false, now, force, s.ds, db, argv).argv, fedAt).Some?
    ensures var r := Execute(eng, false, now, force, s.ds, db, argv);
            var fed := Fed(selected, db, Translate(eng, r.argv, fedAt).value);
            Commands(fed) && (RunAll(eng, t, s, fed) == Session(r.ds, db) <==> !Drifts(eng, r.argv, now, fedAt))
  {
    hide Execute;
    hide Translate;
    hide RunAll;
    hide HasRelativeTtl;
    hide KnowsNames;
    var r := Execute(eng, false, now, force, s.ds, db, argv);
    var cmds := Translate(eng, r.argv, fedAt).value;
    RelativeNeedsSameClock(eng, now, fedAt, force, s.ds, db, argv, t);
    if db != selected {
      RunSelect(eng, t, s, db);
      RunAllOne(eng, t, s, SelectCommand(db));
      RunAllConcat(eng, t, s, [SelectCommand(db)], cmds);
    } else {
      assert Fed(selected, db, cmds) == cmds;
    }
  }

  const SELECT_HEAD: Bytes := "*2\r\n$6\r\nSELECT\r\n"

  lemma SelectHead()
    ensures SELECT_HEAD == Header('*', 2) + EncodeArg("SELECT")
  {
    assert Print(2) == "2" && Print(6) == "6";
    assert Header('*', 2) == "*2\r\n";
    assert Header('$', 6) == "$6\r\n";
    assert EncodeArg("SELECT") == "$6\r\n" + "SELECT" + "\r\n";
  }

  /** The text that feedAppendOnlyFile prints for SELECT is the printed command. */
  lemma SelectText(db: nat)
    ensures SELECT_HEAD + EncodeArg(Print(db)) == Encode(SelectCommand(db))
  {
    hide EncodeArg;
    hide Header;
    hide Print;
    hide EncodeArgs;
    var c := SelectCommand(db);
    SelectHead();
    assert c == ["SELECT"] + [Print(db)];
    EncodeArgsSnoc(["SELECT"], Print(db));
    EncodeArgsSnoc([], "SELECT");
    assert [] + ["SELECT"] == ["SELECT"];
    NoArgs();
    Assoc(Header('*', 2), EncodeArg("SELECT"), EncodeArg(Print(db)));
  }

  /** catAppendOnlyExpireAtCommand */
  method CatExpireAt(buf: Bytes, kind: Kind, key: Bytes, seconds: Bytes, now: int) returns (out: Bytes)
    ensures out == buf + Encode(Pexpireat(key, When(kind, seconds, now)))
  {
    var when := Strtol(seconds);
    if kind == ExpireCmd || kind == SetexCmd || kind == ExpireatCmd {
      when := Wrap(when * 1000);
    }
    if kind == ExpireCmd || kind == PexpireCmd || kind == SetexCmd || kind == PsetexCmd {
      when := Wrap(when + now);
    }
    out := CatGenericCommand(buf, ["PEXPIREAT", key, PrintInt(when)]);
  }

  lemma EncodeTwo(a: Argv, b: Argv)
    ensures EncodeAll([a, b]) == Encode(a) + Encode(b)
  {
    assert [a, b] == [a] + [b];
    EncodeAllConcat([a], [b]);
    EncodeAllOne(a);
    EncodeAllOne(b);
  }

  method CatSetThenExpire(set3: Argv, kind: Kind, seconds: Bytes, now: int) returns (text: Bytes)
    requires |set3| == 3
    ensures text == EncodeAll([set3, Pexpireat(set3[1], When(kind, seconds, now))])
  {
    text := CatGenericCommand("", set3);
    text := CatExpireAt(text, kind, set3[1], seconds, now);
    EncodeTwo(set3, Pexpireat(set3[1], When(kind, seconds, now)));
  }

  /** The EX/PX scan of feedAppendOnlyFile, as its loop runs. */
  method ScanSet(argv: Argv) returns (exarg: Option<Bytes>, pxarg: Option<Bytes>)
    requires |argv| > 3
    ensures exarg == ScanOption(argv[3..], "ex", None)
    ensures pxarg == ScanOption(argv[3..], "px", None)
  {
    exarg, pxarg := None, None;
    var i := 3;
    while i < |argv|
      invariant 3 <= i <= |argv|
      invariant ScanOption(argv[i..], "ex", exarg) == ScanOption(argv[3..], "ex", None)
      invariant ScanOption(argv[i..], "px", pxarg) == ScanOption(argv[3..], "px", None)
    {
      assert argv[i..][1..] == argv[i + 1..];
      if Is(argv[i], "ex") && i + 1 < |argv| { exarg := Some(argv[i + 1]); }
      if Is(argv[i], "px") && i + 1 < |argv| { pxarg := Some(argv[i + 1]); }
      i := i + 1;
    }
  }

  /** The body of feedAppendOnlyFile's case analysis; ok is false when the assertion fails. */
  method TranslateText(eng: Engine, argv: Argv, now: int) returns (ok: bool, text: Bytes)
    requires argv != []
    ensures ok <==> Translate(eng, argv, now).Some?
    ensures ok ==> text == EncodeAll(Translate(eng, argv, now).value)
  {
    var kind := eng.kindOf(argv[0]);
    ok := true;
    if (kind == ExpireCmd || kind == PexpireCmd || kind == ExpireatCmd) && |argv| >= 3 {
      text := CatExpireAt("", kind, argv[1], argv[2], now);
      EncodeAllOne(Pexpireat(argv[1], When(kind, argv[2], now)));
    } else if (kind == SetexCmd || kind == PsetexCmd) && |argv| >= 4 {
      text := CatSetThenExpire(["SET", argv[1], argv[3]], kind, argv[2], now);
    } else if kind == SetCmd && |argv| > 3 {
      ok, text := TranslateSetText(eng, argv, now);
    } else {
      text := CatGenericCommand("", argv);
      EncodeAllOne(argv);
    }
  }

  method TranslateSetText(eng: Engine, argv: Argv, now: int) returns (ok: bool, text: Bytes)
    requires |argv| > 3 && eng.kindOf(argv[0]) == SetCmd
    ensures ok <==> Translate(eng, argv, now).Some?
    ensures ok ==> text == EncodeAll(Translate(eng, argv, now).value)
  {
    var exarg, pxarg := ScanSet(argv);
    ok := !(exarg.Some? && pxarg.Some?);
    text := "";
    if ok && exarg.Some? {
      text := CatSetThenExpire(argv[..3], ExpireCmd, exarg.value, now);
    } else if ok && pxarg.Some? {
      text := CatSetThenExpire(argv[..3], PexpireCmd, pxarg.value, now);
    } else if ok {
      text := CatGenericCommand("", argv);
      EncodeAllOne(argv);
    }
  }

  /** The text that feedAppendOnlyFile appends to the buffers. */
  method FeedText(eng: Engine, dictid: nat, argv: Argv, selected: int, now: int) returns (ok: bool, buf: Bytes)
    requires argv != []
    ensures ok <==> Translate(eng, argv, now).Some?
    ensures ok ==> buf == EncodeAll(Fed(selected, dictid, Translate(eng, argv, now).value))
  {
    buf := "";
    if dictid != selected {
      var seldb := Print(dictid);
      buf := SELECT_HEAD + (['$'] + Print(|seldb|) + CRLF + seldb + CRLF);
      SelectText(dictid);
      EncodeAllOne(SelectCommand(dictid));
    }
    var text;
    ok, text := TranslateText(eng, argv, now);
    if ok {
      EncodeAllConcat(if dictid != selected then [SelectCommand(dictid)] else [], Translate(eng, argv, now).value);
      buf := buf + text;
    }
  }
}
