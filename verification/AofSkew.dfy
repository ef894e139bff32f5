/**
  What the second clock reading of the feeder does to a replayed dataset: keys and values are the
  same, and the expire of a key is off by the distance of the two readings for the command that
  set it.
 */
module AofSkew {
  import opened Decimal
  import opened Resp
  import opened Text
  import opened Store
  import opened AofFeed

  /** By how much the expire of a key is off in a replay; 0 when the key is not listed. */
  type Skew = map<Key, int>

  function OffBy(sk: Skew, k: Key): int {
    if k in sk then sk[k] else 0
  }

  function Shift(expire: int, d: int): int {
    if d == 0 then expire else Wrap(expire + d)
  }

  /** The same keys and values, with the expires shifted. */
  function Shifted(ds: Dataset, sk: Skew): Dataset {
    map k | k in ds :: ds[k].(expire := Shift(ds[k].expire, OffBy(sk, k)))
  }

  lemma NotShifted(ds: Dataset)
    ensures Shifted(ds, map[]) == ds
  {
  }

  // ----- how commands move the skew -------------------------------------------

  /** The effect comes from the rest of the server. */
  predicate UsesOther(eng: Engine, argv: Argv)
    requires argv != []
  {
    var kind := eng.kindOf(argv[0]);
    !IsTimed(kind) && kind !in {SelectCmd, MultiCmd, ExecCmd, DelCmd} && !GrowsHere(eng, argv)
  }

  /** Another command takes expires over from the keys it names as their origin. */
  function Carried(eng: Engine, ds: Dataset, db: nat, argv: Argv, sk: Skew): Skew {
    map k | k in eng.other(ds, db, argv) && CarriedOff(eng, ds, db, argv, sk, k) != 0 ::
      CarriedOff(eng, ds, db, argv, sk, k)
  }

  function CarriedOff(eng: Engine, ds: Dataset, db: nat, argv: Argv, sk: Skew, k: Key): int {
    var from := eng.origin(ds, db, argv, k);
    if from.Some? then OffBy(sk, from.value) else 0
  }

  /** What the rest of the server has to promise: its commands do not look at expires, they only
      move them along. */
  ghost predicate OtherShifts(eng: Engine) {
    forall ds: Dataset, sk: Skew, db: nat, argv: Argv ::
      eng.other(Shifted(ds, sk), db, argv) == Shifted(eng.other(ds, db, argv), Carried(eng, ds, db, argv, sk))
  }

  /** The key whose expire the command sets, for a command that took effect. */
  function Touched(eng: Engine, db: nat, argv: Argv): set<Key>
    requires argv != []
  {
    var kind := eng.kindOf(argv[0]);
    if !IsTimed(kind) || |argv| < 3 then {}
    else if kind == SetCmd && KeepsTtl(argv) then {}
    else {Key(db, argv[1])}
  }

  predicate KeepsTtl(argv: Argv)
    requires |argv| >= 3
  {
    var o := ParseSet(argv[3..], NO_OPTIONS);
    o.Some? && o.value.keepttl
  }

  function Kept(ds: Dataset, ds': Dataset, touched: set<Key>, sk: Skew): Skew {
    map k | k in sk && k in ds && k in ds' && k !in touched && sk[k] != 0 :: sk[k]
  }

  /** The skew after the command argv, executed at clock reading now and fed at fedAt, turned ds into
      ds'. */
  function NewSkew(eng: Engine, ds: Dataset, ds': Dataset, db: nat, argv: Argv, sk: Skew, now: int, fedAt: int): Skew
    requires argv != []
  {
    if UsesOther(eng, argv) then Carried(eng, ds, db, argv, sk)
    else
      var kept := Kept(ds, ds', Touched(eng, db, argv), sk);
      if Drifts(eng, argv, now, fedAt) && |argv| >= 2 then kept[Key(db, argv[1]) := fedAt - now] else kept
  }

  /** Without a drift nothing is ever off. */
  lemma StaysUnskewed(eng: Engine, ds: Dataset, ds': Dataset, db: nat, argv: Argv, now: int, fedAt: int)
    requires argv != [] && !Drifts(eng, argv, now, fedAt)
    ensures NewSkew(eng, ds, ds', db, argv, map[], now, fedAt) == map[]
  {
  }

  // ----- shifted datasets and single changes ------------------------------------

  lemma ShiftedPut(ds: Dataset, sk: Skew, k: Key, e: Entry, sk': Skew)
    requires forall j :: j in ds && j != k ==> OffBy(sk', j) == OffBy(sk, j)
    ensures Shifted(ds, sk)[k := e.(expire := Shift(e.expire, OffBy(sk', k)))] == Shifted(ds[k := e], sk')
  {
    hide Shift;
  }

  lemma ShiftedLess(ds: Dataset, sk: Skew, gone: set<Key>, sk': Skew)
    requires forall j :: j in ds && j !in gone ==> OffBy(sk', j) == OffBy(sk, j)
    ensures Shifted(ds, sk) - gone == Shifted(ds - gone, sk')
  {
    hide Shift;
  }

  lemma ShiftedSame(ds: Dataset, sk: Skew, sk': Skew)
    requires forall j :: j in ds ==> OffBy(sk', j) == OffBy(sk, j)
    ensures Shifted(ds, sk) == Shifted(ds, sk')
  {
    hide Shift;
  }

  /** The two readings, as a distance that matters. */
  function Drift(now: int, fedAt: int): int {
    if (fedAt - now) % TWO64 == 0 then 0 else fedAt - now
  }

  lemma WhenShift(kind: Kind, param: Bytes, now: int, fedAt: int)
    requires IsRelative(kind)
    ensures When(kind, param, fedAt) == Shift(When(kind, param, now), Drift(now, fedAt))
  {
    WhenEqual(kind, param, fedAt, now);
    if (fedAt - now) % TWO64 != 0 {
      var w := Strtol(param);
      var ms := if InSeconds(kind) then Wrap(w * 1000) else w;
      WrapOnce(ms + now, fedAt - now);
      assert ms + now + (fedAt - now) == ms + fedAt;
    }
  }

  lemma WrapOnce(a: int, d: int)
    ensures Wrap(Wrap(a) + d) == Wrap(a + d)
  {
    WrapClass(a);
    WrapEqual(Wrap(a) + d, a + d);
    assert Wrap(a) + d - (a + d) == Wrap(a) - a;
  }

  lemma WrapClass(a: int)
    ensures (Wrap(a) - a) % TWO64 == 0
  {
    WrapEqual(Wrap(a), a);
  }

  // ----- replaying on a shifted dataset -----------------------------------------

  /** NewSkew for a command that sets the expire of K: only K changes. */
  lemma TouchedSkew(eng: Engine, ds: Dataset, e: Entry, db: nat, argv: Argv, sk: Skew, now: int, fedAt: int)
    requires |argv| >= 3 && IsTimed(eng.kindOf(argv[0])) && Touched(eng, db, argv) == {Key(db, argv[1])}
    ensures var k := Key(db, argv[1]);
            var sk' := NewSkew(eng, ds, ds[k := e], db, argv, sk, now, fedAt);
            && (forall j :: j in ds && j != k ==> OffBy(sk', j) == OffBy(sk, j))
            && OffBy(sk', k) == if HasRelativeTtl(eng, argv) then Drift(now, fedAt) else 0
  {
    hide Touched;
    hide HasRelativeTtl;
  }

  lemma SetTtlShifts(eng: Engine, ds: Dataset, sk: Skew, db: nat, set3: Argv, kind: Kind, param: Bytes,
                     now: int, fedAt: int, t: int, sk': Skew)
    requires KnowsNames(eng) && |set3| == 3 && eng.kindOf(set3[0]) == SetCmd && IsRelative(kind)
    requires forall j :: j in ds && j != Key(db, set3[1]) ==> OffBy(sk', j) == OffBy(sk, j)
    requires OffBy(sk', Key(db, set3[1])) == Drift(now, fedAt)
    ensures RunAll(eng, t, Session(Shifted(ds, sk), db), [set3, Pexpireat(set3[1], When(kind, param, fedAt))]) ==
            Session(Shifted(ds[Key(db, set3[1]) := Entry(Str(set3[2]), When(kind, param, now))], sk'), db)
  {
    hide RunAll;
    hide Shifted;
    hide KnowsNames;
    var k := Key(db, set3[1]);
    WhenEqual(kind, param, fedAt, now);
    WhenShift(kind, param, now, fedAt);
    hide When;
    RunSetThenExpire(eng, t, Session(Shifted(ds, sk), db), set3, When(kind, param, fedAt));
    ShiftedPut(ds, sk, k, Entry(Str(set3[2]), When(kind, param, now)), sk');
  }

  lemma SetexShifts(eng: Engine, now: int, fedAt: int, force: bool, ds: Dataset, sk: Skew, db: nat, argv: Argv, t: int)
    requires KnowsNames(eng) && argv != [] && eng.kindOf(argv[0]) in {SetexCmd, PsetexCmd}
    requires Execute(eng, false, now, force, ds, db, argv).dirty
    ensures var r := Execute(eng, false, now, force, ds, db, argv);
            && r.argv == argv && Translate(eng, argv, fedAt).Some?
            && RunAll(eng, t, Session(Shifted(ds, sk), db), Translate(eng, argv, fedAt).value) ==
               Session(Shifted(r.ds, NewSkew(eng, ds, r.ds, db, argv, sk, now, fedAt)), db)
  {
    hide Execute;
    hide RunAll;
    hide Shifted;
    hide NewSkew;
    hide When;
    SetexEffect(eng, now, force, ds, db, argv);
    var kind := eng.kindOf(argv[0]);
    var e := Entry(Str(argv[3]), When(kind, argv[2], now));
    TouchedSkew(eng, ds, e, db, argv, sk, now, fedAt);
    SetTtlShifts(eng, ds, sk, db, ["SET", argv[1], argv[3]], kind, argv[2], now, fedAt, t,
                 NewSkew(eng, ds, ds[Key(db, argv[1]) := e], db, argv, sk, now, fedAt));
  }

  lemma SetWithTtlShifts(eng: Engine, now: int, fedAt: int, force: bool, ds: Dataset, sk: Skew, db: nat, argv: Argv, t: int)
    requires KnowsNames(eng) && argv != [] && eng.kindOf(argv[0]) == SetCmd && HasRelativeTtl(eng, argv)
    requires Execute(eng, false, now, force, ds, db, argv).dirty && Translate(eng, argv, fedAt).Some?
    ensures var r := Execute(eng, false, now, force, ds, db, argv);
            RunAll(eng, t, Session(Shifted(ds, sk), db), Translate(eng, argv, fedAt).value) ==
            Session(Shifted(r.ds, NewSkew(eng, ds, r.ds, db, argv, sk, now, fedAt)), db)
  {
    hide Execute;
    hide ParseSet;
    hide ScanOption;
    hide Occurs;
    hide When;
    hide Strict;
    hide RunAll;
    hide Shifted;
    hide NewSkew;
    SetEffect(eng, now, force, ds, db, argv);
    var o := ParseSet(argv[3..], NO_OPTIONS).value;
    ScanMatchesParse(argv[3..], NO_OPTIONS);
    ScanDepends(argv[3..], "ex", None);
    ScanDepends(argv[3..], "px", None);
    NoKeepWithTtl(argv[3..], NO_OPTIONS);
    var kind := if o.ex.Some? then ExpireCmd else PexpireCmd;
    var param := if o.ex.Some? then o.ex.value else o.px.value;
    var e := Entry(Str(argv[2]), When(kind, param, now));
    TouchedSkew(eng, ds, e, db, argv, sk, now, fedAt);
    SetTtlShifts(eng, ds, sk, db, argv[..3], kind, param, now, fedAt, t,
                 NewSkew(eng, ds, ds[Key(db, argv[1]) := e], db, argv, sk, now, fedAt));
  }

  /** KEEPTTL and EX or PX exclude each other. */
  lemma {:induction false} NoKeepWithTtl(args: Argv, o: SetOptions)
    requires ParseSet(args, o).Some? && (o.keepttl ==> o.ex.None? && o.px.None?)
    ensures var r := ParseSet(args, o).value; r.keepttl ==> r.ex.None? && r.px.None?
    decreases |args|
  {
    hide Is;
    if args == [] {
    } else if Is(args[0], "nx") && !o.xx {
      NoKeepWithTtl(args[1..], o.(nx := true));
    } else if Is(args[0], "xx") && !o.nx {
      NoKeepWithTtl(args[1..], o.(xx := true));
    } else if Is(args[0], "keepttl") && o.ex.None? && o.px.None? {
      NoKeepWithTtl(args[1..], o.(keepttl := true));
    } else if Is(args[0], "ex") && !o.keepttl && o.px.None? && |args| >= 2 {
      NoKeepWithTtl(args[2..], o.(ex := Some(args[1])));
    } else {
      NoKeepWithTtl(args[2..], o.(px := Some(args[1])));
    }
  }

  /** A SET without a time to live that takes effect, in memory or in a replay. */
  lemma PlainSetEffect(eng: Engine, loading: bool, now: int, force: bool, ds: Dataset, db: nat, argv: Argv)
    requires |argv| >= 3 && eng.kindOf(argv[0]) == SetCmd && ParseSet(argv[3..], NO_OPTIONS).Some?
    requires var o := ParseSet(argv[3..], NO_OPTIONS).value; o.ex.None? && o.px.None?
    ensures var k, o := Key(db, argv[1]), ParseSet(argv[3..], NO_OPTIONS).value;
            Execute(eng, loading, now, force, ds, db, argv) ==
            if (o.nx && k in ds) || (o.xx && k !in ds) then Outcome(ds, false, argv)
            else Outcome(ds[k := Entry(Str(argv[2]), if o.keepttl && k in ds then ds[k].expire else -1)], true, argv)
  {
    hide ParseSet;
    hide Wrap;
    hide Strict;
  }

  lemma PlainSetShifts(eng: Engine, now: int, fedAt: int, force: bool, ds: Dataset, sk: Skew, db: nat, argv: Argv, t: int)
    requires argv != [] && eng.kindOf(argv[0]) == SetCmd && !HasRelativeTtl(eng, argv)
    requires Execute(eng, false, now, force, ds, db, argv).dirty
    ensures var r := Execute(eng, false, now, force, ds, db, argv);
            && Translate(eng, argv, fedAt) == Some([argv])
            && RunAll(eng, t, Session(Shifted(ds, sk), db), [argv]) ==
               Session(Shifted(r.ds, NewSkew(eng, ds, r.ds, db, argv, sk, now, fedAt)), db)
  {
    hide Execute;
    hide ParseSet;
    hide ScanOption;
    hide Occurs;
    hide When;
    hide Strict;
    hide RunAll;
    SetEffect(eng, now, force, ds, db, argv);
    var o := ParseSet(argv[3..], NO_OPTIONS).value;
    ScanMatchesParse(argv[3..], NO_OPTIONS);
    ScanDepends(argv[3..], "ex", None);
    ScanDepends(argv[3..], "px", None);
    assert |argv| == 3 ==> argv[3..] == [];
    NoSetOptions();
    var k, b := Key(db, argv[1]), Shifted(ds, sk);
    PlainSetEffect(eng, false, now, force, ds, db, argv);
    PlainSetEffect(eng, true, t, false, b, db, argv);
    RunAllOne(eng, t, Session(b, db), argv);
    RunOneIsExecute(eng, t, Session(b, db), argv);
    hide Shifted;
    var e := Entry(Str(argv[2]), if o.keepttl && k in ds then ds[k].expire else -1);
    PlainSetSkew(eng, ds, e, db, argv, sk, now, fedAt);
    ShiftedPut(ds, sk, k, e, NewSkew(eng, ds, ds[k := e], db, argv, sk, now, fedAt));
    ShiftedAt(ds, sk, k);
  }

  lemma ShiftedAt(ds: Dataset, sk: Skew, k: Key)
    ensures k in Shifted(ds, sk) <==> k in ds
    ensures k in ds ==> Shifted(ds, sk)[k] == ds[k].(expire := Shift(ds[k].expire, OffBy(sk, k)))
  {
  }

  lemma PlainSetSkew(eng: Engine, ds: Dataset, e: Entry, db: nat, argv: Argv, sk: Skew, now: int, fedAt: int)
    requires |argv| >= 3 && eng.kindOf(argv[0]) == SetCmd && !HasRelativeTtl(eng, argv)
    ensures var k := Key(db, argv[1]);
            var sk' := NewSkew(eng, ds, ds[k := e], db, argv, sk, now, fedAt);
            && (forall j :: j in ds && j != k ==> OffBy(sk', j) == OffBy(sk, j))
            && OffBy(sk', k) == if KeepsTtl(argv) && k in ds then OffBy(sk, k) else 0
  {
    hide HasRelativeTtl;
    hide KeepsTtl;
  }

  lemma ExpireShifts(eng: Engine, now: int, fedAt: int, force: bool, ds: Dataset, sk: Skew, db: nat, argv: Argv, t: int)
    requires KnowsNames(eng) && argv != [] && eng.kindOf(argv[0]) in {ExpireCmd, PexpireCmd, ExpireatCmd, PexpireatCmd}
    requires Execute(eng, false, now, force, ds, db, argv).dirty
    ensures var r := Execute(eng, false, now, force, ds, db, argv);
            && Translate(eng, r.argv, fedAt).Some?
            && RunAll(eng, t, Session(Shifted(ds, sk), db), Translate(eng, r.argv, fedAt).value) ==
               Session(Shifted(r.ds, NewSkew(eng, ds, r.ds, db, r.argv, sk, now, fedAt)), db)
  {
    hide Execute;
    hide RunAll;
    hide NewSkew;
    hide Shifted;
    hide When;
    ExpireEffect(eng, now, force, ds, db, argv);
    if When(eng.kindOf(argv[0]), argv[2], now) <= now {
      ExpiredShifts(eng, ds, sk, db, argv[1], now, fedAt, t);
    } else {
      LiveShifts(eng, ds, sk, db, argv, now, fedAt, t);
    }
  }

  /** An expire in the past deletes the key, and is propagated as a deletion. */
  lemma ExpiredShifts(eng: Engine, ds: Dataset, sk: Skew, db: nat, key: Bytes, now: int, fedAt: int, t: int)
    requires KnowsNames(eng)
    ensures var argv := [if eng.lazyExpire then "UNLINK" else "DEL", key];
            var k := Key(db, key);
            && Translate(eng, argv, fedAt) == Some([argv])
            && RunAll(eng, t, Session(Shifted(ds, sk), db), [argv]) ==
               Session(Shifted(ds - {k}, NewSkew(eng, ds, ds - {k}, db, argv, sk, now, fedAt)), db)
  {
    hide RunAll;
    hide Shifted;
    hide When;
    hide ScanOption;
    var name := if eng.lazyExpire then "UNLINK" else "DEL";
    var argv, k := [name, key], Key(db, key);
    RunDel(eng, t, Session(Shifted(ds, sk), db), key, name);
    RunAllOne(eng, t, Session(Shifted(ds, sk), db), argv);
    ShiftedLess(ds, sk, {k}, NewSkew(eng, ds, ds - {k}, db, argv, sk, now, fedAt));
  }

  lemma LiveShifts(eng: Engine, ds: Dataset, sk: Skew, db: nat, argv: Argv, now: int, fedAt: int, t: int)
    requires KnowsNames(eng) && |argv| == 3 && Key(db, argv[1]) in ds && Strict(argv[2]).Number?
    requires eng.kindOf(argv[0]) in {ExpireCmd, PexpireCmd, ExpireatCmd, PexpireatCmd}
    requires LLONG_MIN <= When(eng.kindOf(argv[0]), argv[2], now) <= LLONG_MAX
    ensures var k := Key(db, argv[1]);
            var ds' := ds[k := ds[k].(expire := When(eng.kindOf(argv[0]), argv[2], now))];
            && Translate(eng, argv, fedAt).Some?
            && RunAll(eng, t, Session(Shifted(ds, sk), db), Translate(eng, argv, fedAt).value) ==
               Session(Shifted(ds', NewSkew(eng, ds, ds', db, argv, sk, now, fedAt)), db)
  {
    hide RunAll;
    hide Shifted;
    hide NewSkew;
    hide Strict;
    var k, kind, b := Key(db, argv[1]), eng.kindOf(argv[0]), Shifted(ds, sk);
    var e := ds[k].(expire := When(kind, argv[2], now));
    var s := Session(b, db);
    ShiftedAt(ds, sk, k);
    TouchedSkew(eng, ds, e, db, argv, sk, now, fedAt);
    ShiftedPut(ds, sk, k, e, NewSkew(eng, ds, ds[k := e], db, argv, sk, now, fedAt));
    FedTime(kind, argv[2], now, fedAt);
    hide When;
    if kind == PexpireatCmd {
      RunAllOne(eng, t, s, argv);
      RunPexpireatRaw(eng, t, s, argv, now);
    } else {
      RunPexpireat(eng, t, s, argv[1], When(kind, argv[2], fedAt));
      RunAllOne(eng, t, s, Pexpireat(argv[1], When(kind, argv[2], fedAt)));
    }
  }

  lemma FedTime(kind: Kind, param: Bytes, now: int, fedAt: int)
    requires kind in {ExpireCmd, PexpireCmd, ExpireatCmd, PexpireatCmd}
    ensures When(kind, param, fedAt) == if IsRelative(kind) then Shift(When(kind, param, now), Drift(now, fedAt)) else When(kind, param, now)
    ensures IsRelative(kind) ==> LLONG_MIN <= When(kind, param, fedAt) <= LLONG_MAX
  {
    if IsRelative(kind) {
      WhenShift(kind, param, now, fedAt);
      WhenEqual(kind, param, fedAt, now);
    }
  }

  /** Values decide what is added; the expire goes along. */
  lemma GrowShifts(eng: Engine, ds: Dataset, sk: Skew, k: Key, kind: Kind, args: Argv, sk': Skew)
    requires kind in {RpushCmd, SaddCmd, ZaddCmd, HmsetCmd}
    requires forall j :: j in ds ==> OffBy(sk', j) == OffBy(sk, j)
    requires k !in ds ==> OffBy(sk', k) == 0
    ensures Grow(eng, Shifted(ds, sk), k, kind, args) == Shifted(Grow(eng, ds, k, kind, args), sk')
  {
    hide Scores;
    hide AddPairs;
    ShiftedAt(ds, sk, k);
    ShiftedSame(ds, sk, sk');
    var r := Grow(eng, ds, k, kind, args);
    if r != ds {
      ShiftedPut(ds, sk, k, r[k], sk');
    }
    hide Shifted;
    hide Shift;
  }

  lemma UntimedShifts(eng: Engine, now: int, fedAt: int, force: bool, ds: Dataset, sk: Skew, db: nat, argv: Argv, t: int)
    requires argv != [] && !IsTimed(eng.kindOf(argv[0])) && (OtherShifts(eng) || sk == map[])
    requires Execute(eng, false, now, force, ds, db, argv).dirty
    ensures var r := Execute(eng, false, now, force, ds, db, argv);
            && r.argv == argv && Translate(eng, argv, fedAt) == Some([argv])
            && RunAll(eng, t, Session(Shifted(ds, sk), db), [argv]) ==
               Session(Shifted(r.ds, NewSkew(eng, ds, r.ds, db, argv, sk, now, fedAt)), db)
  {
    hide Untimed;
    hide OtherShifts;
    hide Shifted;
    hide NewSkew;
    hide RunAll;
    RunAllOne(eng, t, Session(Shifted(ds, sk), db), argv);
    UntimedCases(eng, ds, sk, db, argv, now, fedAt);
  }

  lemma UntimedCases(eng: Engine, ds: Dataset, sk: Skew, db: nat, argv: Argv, now: int, fedAt: int)
    requires argv != [] && !IsTimed(eng.kindOf(argv[0])) && (OtherShifts(eng) || sk == map[])
    requires eng.kindOf(argv[0]) !in {SelectCmd, MultiCmd, ExecCmd}
    ensures var ds' := Untimed(eng, ds, db, argv);
            Untimed(eng, Shifted(ds, sk), db, argv) == Shifted(ds', NewSkew(eng, ds, ds', db, argv, sk, now, fedAt))
  {
    hide Shifted;
    hide Grow;
    hide GrowsHere;
    var ds' := Untimed(eng, ds, db, argv);
    var sk' := NewSkew(eng, ds, ds', db, argv, sk, now, fedAt);
    if eng.kindOf(argv[0]) == DelCmd {
      ShiftedLess(ds, sk, set k | k in argv[1..] :: Key(db, k), sk');
    } else if GrowsHere(eng, argv) {
      GrowsArgs(eng, argv);
      GrowKeys(eng, ds, Key(db, argv[1]), eng.kindOf(argv[0]), argv[2..]);
      GrowShifts(eng, ds, sk, Key(db, argv[1]), eng.kindOf(argv[0]), argv[2..], sk');
    } else if sk == map[] {
      NotShifted(ds);
      NotShifted(ds');
      NothingCarried(eng, ds, db, argv);
    }
  }

  lemma GrowsArgs(eng: Engine, argv: Argv)
    requires argv != [] && GrowsHere(eng, argv)
    ensures |argv| >= 3 && eng.kindOf(argv[0]) in {RpushCmd, SaddCmd, ZaddCmd, HmsetCmd}
  {
  }

  lemma GrowKeys(eng: Engine, ds: Dataset, k: Key, kind: Kind, args: Argv)
    requires kind in {RpushCmd, SaddCmd, ZaddCmd, HmsetCmd}
    ensures forall j :: j in ds ==> j in Grow(eng, ds, k, kind, args)
  {
    hide Scores;
    hide AddPairs;
  }

  lemma NothingCarried(eng: Engine, ds: Dataset, db: nat, argv: Argv)
    ensures Carried(eng, ds, db, argv, map[]) == map[]
  {
  }

  /** Main result, for any two clock readings: replaying what was fed for a command on a dataset whose
      expires are off gives what the command made of the right one, with the same expires off, except
      that the expire the command set is off by the distance of its own two readings. */
  lemma TranslateShifts(eng: Engine, now: int, fedAt: int, force: bool, ds: Dataset, sk: Skew, db: nat, argv: Argv, t: int)
    requires KnowsNames(eng) && argv != [] && (OtherShifts(eng) || sk == map[])
    requires Execute(eng, false, now, force, ds, db, argv).dirty
    requires Translate(eng, Execute(eng, false, now, force, ds, db, argv).argv, fedAt).Some?
    ensures var r := Execute(eng, false, now, force, ds, db, argv);
            RunAll(eng, t, Session(Shifted(ds, sk), db), Translate(eng, r.argv, fedAt).value) ==
            Session(Shifted(r.ds, NewSkew(eng, ds, r.ds, db, r.argv, sk, now, fedAt)), db)
  {
    hide Execute;
    hide Translate;
    hide RunAll;
    hide Shifted;
    hide NewSkew;
    hide KnowsNames;
    hide OtherShifts;
    match eng.kindOf(argv[0])
    case SetCmd =>
      SetArgvKept(eng, now, force, ds, db, argv);
      if HasRelativeTtl(eng, argv) {
        SetWithTtlShifts(eng, now, fedAt, force, ds, sk, db, argv, t);
      } else {
        PlainSetShifts(eng, now, fedAt, force, ds, sk, db, argv, t);
      }
    case SetexCmd => SetexShifts(eng, now, fedAt, force, ds, sk, db, argv, t);
    case PsetexCmd => SetexShifts(eng, now, fedAt, force, ds, sk, db, argv, t);
    case ExpireCmd => ExpireShifts(eng, now, fedAt, force, ds, sk, db, argv, t);
    case PexpireCmd => ExpireShifts(eng, now, fedAt, force, ds, sk, db, argv, t);
    case ExpireatCmd => ExpireShifts(eng, now, fedAt, force, ds, sk, db, argv, t);
    case PexpireatCmd => ExpireShifts(eng, now, fedAt, force, ds, sk, db, argv, t);
    case _ => UntimedShifts(eng, now, fedAt, force, ds, sk, db, argv, t);
  }

  /** The same with the SELECT in front, whatever database was selected before. */
  lemma FedShifts(eng: Engine, now: int, fedAt: int, force: bool, ds: Dataset, sk: Skew, d: nat, selected: int,
                  db: nat, argv: Argv, t: int)
    requires KnowsNames(eng) && argv != [] && db < eng.dbnum <= LLONG_MAX && (OtherShifts(eng) || sk == map[])
    requires selected >= 0 ==> d == selected
    requires Execute(eng, false, now, force, ds, db, argv).dirty
    requires Translate(eng, Execute(eng, false, now, force, ds, db, argv).argv, fedAt).Some?
    ensures var r := Execute(eng, false, now, force, ds, db, argv);
            var fed := Fed(selected, db, Translate(eng, r.argv, fedAt).value);
            && Commands(fed)
            && RunAll(eng, t, Session(Shifted(ds, sk), d), fed) ==
               Session(Shifted(r.ds, NewSkew(eng, ds, r.ds, db, r.argv, sk, now, fedAt)), db)
  {
    hide Execute;
    hide Translate;
    hide RunAll;
    hide Shifted;
    hide NewSkew;
    hide KnowsNames;
    hide OtherShifts;
    var cmds := Translate(eng, Execute(eng, false, now, force, ds, db, argv).argv, fedAt).value;
    var s := Session(Shifted(ds, sk), d);
    TranslateShifts(eng, now, fedAt, force, ds, sk, db, argv, t);
    if db != selected {
      RunSelect(eng, t, s, db);
      RunAllOne(eng, t, s, SelectCommand(db));
      RunAllConcat(eng, t, s, [SelectCommand(db)], cmds);
    } else {
      assert Fed(selected, db, cmds) == cmds;
    }
  }

  /** A relative time to live that took effect sets the expire of its key. */
  lemma RelativeTouches(eng: Engine, now: int, force: bool, ds: Dataset, db: nat, argv: Argv)
    requires argv != [] && HasRelativeTtl(eng, argv) && Execute(eng, false, now, force, ds, db, argv).dirty
    ensures |argv| >= 3 && Touched(eng, db, argv) == {Key(db, argv[1])}
  {
    hide Execute;
    hide ParseSet;
    hide ScanOption;
    hide Occurs;
    hide When;
    hide Strict;
    if eng.kindOf(argv[0]) == SetCmd {
      SetEffect(eng, now, force, ds, db, argv);
      ScanMatchesParse(argv[3..], NO_OPTIONS);
      ScanDepends(argv[3..], "ex", None);
      ScanDepends(argv[3..], "px", None);
      NoKeepWithTtl(argv[3..], NO_OPTIONS);
    }
  }
}
