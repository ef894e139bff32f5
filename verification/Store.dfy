/**
  The dataset and the commands that the append only file depends on. The same Execute runs
  for clients and for the loader; `loading` only switches off the "already expired" test.
  Commands that the file treats as opaque go through the `other` function of the engine.
 */
module Store {
  import opened Decimal
  import opened Resp
  import opened Text

  /** A sorted set keeps, for every member, the canonical text of its score. */
  datatype Value =
    | Str(text: Bytes)
    | List(items: seq<Bytes>)
    | Set(members: set<Bytes>)
    | ZSet(scores: map<Bytes, Bytes>)
    | Hash(fields: map<Bytes, Bytes>)

  /** expire is the absolute time in milliseconds, -1 when there is none (getExpire). */
  datatype Entry = Entry(value: Value, expire: int)

  datatype Key = Key(db: nat, name: Bytes)

  type Dataset = map<Key, Entry>

  /** What is not part of this file: the number of databases, the deletion flavour
      (lazyfree-lazy-expire), the command table, the canonical text of a double, the effect of
      all other commands, and the key whose expire a key has after such a command (None when
      the command sets the expire itself). */
  datatype Engine = Engine(
    dbnum: nat,
    lazyExpire: bool,
    kindOf: Bytes -> Kind,
    score: Bytes -> Option<Bytes>,
    other: (Dataset, nat, Argv) -> Dataset,
    origin: (Dataset, nat, Argv, Key) -> Option<Key>)

  // ----- commands ------------------------------------------------------------

  datatype Kind =
    | SetCmd | SetexCmd | PsetexCmd
    | ExpireCmd | PexpireCmd | ExpireatCmd | PexpireatCmd
    | RpushCmd | SaddCmd | ZaddCmd | HmsetCmd | DelCmd
    | SelectCmd | MultiCmd | ExecCmd | OtherCmd

  /** The command table knows the names that the append only file code itself writes. */
  predicate KnowsNames(eng: Engine) {
    && eng.kindOf("SET") == SetCmd
    && eng.kindOf("PEXPIREAT") == PexpireatCmd
    && eng.kindOf("SELECT") == SelectCmd
    && eng.kindOf("DEL") == DelCmd
    && eng.kindOf("UNLINK") == DelCmd
    && eng.kindOf("RPUSH") == RpushCmd
    && eng.kindOf("SADD") == SaddCmd
    && eng.kindOf("ZADD") == ZaddCmd
    && eng.kindOf("HMSET") == HmsetCmd
  }

  /** 64 bit two's complement wrap of a long long computation. */
  function Wrap(n: int): (r: int)
    ensures LLONG_MIN <= r <= LLONG_MAX
    ensures LLONG_MIN <= n <= LLONG_MAX ==> r == n
  {
    (n - LLONG_MIN) % 0x1_0000_0000_0000_0000 + LLONG_MIN
  }

  // ----- single commands ----------------------------------------------------

  datatype Unit = Seconds | Milliseconds

  function InMillis(n: int, unit: Unit): int {
    if unit == Seconds then Wrap(n * 1000) else n
  }

  datatype SetOptions = SetOptions(nx: bool, xx: bool, keepttl: bool, ex: Option<Bytes>, px: Option<Bytes>)

  /** The option loop of setCommand; None is the syntax error. */
  function ParseSet(args: Argv, o: SetOptions): Option<SetOptions> {
    if args == [] then Some(o)
    else if Is(args[0], "nx") && !o.xx then ParseSet(args[1..], o.(nx := true))
    else if Is(args[0], "xx") && !o.nx then ParseSet(args[1..], o.(xx := true))
    else if Is(args[0], "keepttl") && o.ex.None? && o.px.None? then ParseSet(args[1..], o.(keepttl := true))
    else if Is(args[0], "ex") && !o.keepttl && o.px.None? && |args| >= 2 then
      ParseSet(args[2..], o.(ex := Some(args[1])))
    else if Is(args[0], "px") && !o.keepttl && o.ex.None? && |args| >= 2 then
      ParseSet(args[2..], o.(px := Some(args[1])))
    else None
  }

  const NO_OPTIONS := SetOptions(false, false, false, None, None)

  /** Result of running a command: the dataset, whether it must be propagated, and the
      argument vector to propagate, which the command may have rewritten. */
  datatype Outcome = Outcome(ds: Dataset, dirty: bool, argv: Argv)

  /** setGenericCommand */
  function SetGeneric(ds: Dataset, key: Key, val: Bytes, nx: bool, xx: bool, keepttl: bool,
                      expire: Option<Bytes>, unit: Unit, now: int, argv: Argv): Outcome
  {
    var nothing := Outcome(ds, false, argv);
    var ttl := if expire.Some? then Strict(expire.value) else Number(1);
    if ttl.NotANumber? || ttl.value <= 0 then nothing
    else if (nx && key in ds) || (xx && key !in ds) then nothing
    else
      var kept := if keepttl && key in ds then ds[key].expire else -1;
      var at := if expire.Some? then Wrap(now + InMillis(ttl.value, unit)) else kept;
      Outcome(ds[key := Entry(Str(val), at)], true, argv)
  }

  /** expireGenericCommand */
  function ExpireGeneric(eng: Engine, loading: bool, ds: Dataset, key: Key, param: Bytes,
                         base: int, unit: Unit, now: int, argv: Argv): Outcome
  {
    var p := Strict(param);
    if p.NotANumber? || key !in ds then Outcome(ds, false, argv)
    else
      var when := Wrap(InMillis(p.value, unit) + base);
      if when <= now && !loading then
        Outcome(ds - {key}, true, [if eng.lazyExpire then "UNLINK" else "DEL", key.name])
      else
        Outcome(ds[key := ds[key].(expire := when)], true, argv)
  }

  /** Adds consecutive pairs; scoreFirst is ZADD's order, otherwise HMSET's. */
  function AddPairs(m: map<Bytes, Bytes>, args: Argv, scoreFirst: bool): map<Bytes, Bytes>
    decreases |args|
  {
    if |args| < 2 then m
    else if scoreFirst then AddPairs(m[args[1] := args[0]], args[2..], scoreFirst)
    else AddPairs(m[args[0] := args[1]], args[2..], scoreFirst)
  }

  /** The score arguments of a ZADD in canonical text, or None when one is not a number. */
  function Scores(eng: Engine, args: Argv): Option<Argv> {
    if |args| < 2 then Some([])
    else
      var s := eng.score(args[0]);
      var r := Scores(eng, args[2..]);
      if s.Some? && r.Some? then Some([s.value, args[1]] + r.value) else None
  }

  /** Adds elements to the aggregate at key; a wrong type or a bad score changes nothing. */
  function Grow(eng: Engine, ds: Dataset, key: Key, kind: Kind, args: Argv): Dataset
    requires kind in {RpushCmd, SaddCmd, ZaddCmd, HmsetCmd}
  {
    var was := if key in ds then ds[key] else Entry(Empty(kind), -1);
    match kind
    case RpushCmd => if was.value.List? then ds[key := was.(value := List(was.value.items + args))] else ds
    case SaddCmd =>
      if was.value.Set? then ds[key := was.(value := Set(was.value.members + (set x | x in args)))] else ds
    case ZaddCmd =>
      var s := Scores(eng, args);
      if was.value.ZSet? && s.Some? then ds[key := was.(value := ZSet(AddPairs(was.value.scores, s.value, true)))]
      else ds
    case HmsetCmd =>
      if was.value.Hash? then ds[key := was.(value := Hash(AddPairs(was.value.fields, args, false)))] else ds
  }

  function Empty(kind: Kind): Value
    requires kind in {RpushCmd, SaddCmd, ZaddCmd, HmsetCmd}
  {
    match kind
    case RpushCmd => List([])
    case SaddCmd => Set({})
    case ZaddCmd => ZSet(map[])
    case HmsetCmd => Hash(map[])
  }

  /** The words that may stand before the scores of a ZADD. */
  predicate IsZaddOption(s: Bytes) {
    Is(s, "nx") || Is(s, "xx") || Is(s, "ch") || Is(s, "incr")
  }

  /** Well-formed calls of the aggregate commands handled here; a ZADD with an option word is
      left to the engine. */
  predicate GrowsHere(eng: Engine, argv: Argv) {
    && |argv| >= 3
    && match eng.kindOf(argv[0])
       case RpushCmd => true
       case SaddCmd => true
       case ZaddCmd => |argv| % 2 == 0 && !IsZaddOption(argv[2])
       case HmsetCmd => |argv| % 2 == 0
       case _ => false
  }

  /** One command in database db at clock reading now (milliseconds). For the commands that
      are not about expiry, `force` stands for a propagation the command asks for although
      the dataset did not change. */
  function Execute(eng: Engine, loading: bool, now: int, force: bool, ds: Dataset, db: nat, argv: Argv): (r: Outcome)
    requires argv != []
    ensures r.argv != []
  {
    var nothing := Outcome(ds, false, argv);
    match eng.kindOf(argv[0])
    case SetCmd =>
      if |argv| < 3 then nothing
      else
        var o := ParseSet(argv[3..], NO_OPTIONS);
        if o.None? then nothing
        else if o.value.ex.Some? then
          SetGeneric(ds, Key(db, argv[1]), argv[2], o.value.nx, o.value.xx, false, o.value.ex, Seconds, now, argv)
        else
          SetGeneric(ds, Key(db, argv[1]), argv[2], o.value.nx, o.value.xx, o.value.keepttl, o.value.px,
                     Milliseconds, now, argv)
    case SetexCmd =>
      if |argv| != 4 then nothing
      else SetGeneric(ds, Key(db, argv[1]), argv[3], false, false, false, Some(argv[2]), Seconds, now, argv)
    case PsetexCmd =>
      if |argv| != 4 then nothing
      else SetGeneric(ds, Key(db, argv[1]), argv[3], false, false, false, Some(argv[2]), Milliseconds, now, argv)
    case ExpireCmd =>
      if |argv| != 3 then nothing
      else ExpireGeneric(eng, loading, ds, Key(db, argv[1]), argv[2], now, Seconds, now, argv)
    case PexpireCmd =>
      if |argv| != 3 then nothing
      else ExpireGeneric(eng, loading, ds, Key(db, argv[1]), argv[2], now, Milliseconds, now, argv)
    case ExpireatCmd =>
      if |argv| != 3 then nothing
      else ExpireGeneric(eng, loading, ds, Key(db, argv[1]), argv[2], 0, Seconds, now, argv)
    case PexpireatCmd =>
      if |argv| != 3 then nothing
      else ExpireGeneric(eng, loading, ds, Key(db, argv[1]), argv[2], 0, Milliseconds, now, argv)
    case SelectCmd => nothing
    case MultiCmd => nothing
    case ExecCmd => nothing
    case _ =>
      var ds' := Untimed(eng, ds, db, argv);
      Outcome(ds', force || ds' != ds, argv)
  }

  /** Commands whose effect does not depend on the clock. */
  function Untimed(eng: Engine, ds: Dataset, db: nat, argv: Argv): Dataset
    requires argv != []
  {
    if eng.kindOf(argv[0]) == DelCmd then ds - (set k | k in argv[1..] :: Key(db, k))
    else if GrowsHere(eng, argv) then Grow(eng, ds, Key(db, argv[1]), eng.kindOf(argv[0]), argv[2..])
    else eng.other(ds, db, argv)
  }

  // ----- the fake client of the loader --------------------------------------

  /** Dataset and selected database while a stream of commands runs. */
  datatype Session = Session(ds: Dataset, db: nat)

  const FRESH := Session(map[], 0)

  /** Runs one command of the file, at load time t, outside a transaction. */
  function RunOne(eng: Engine, t: int, s: Session, argv: Argv): Session
    requires argv != []
  {
    if eng.kindOf(argv[0]) == SelectCmd then
      if |argv| != 2 then s
      else
        var n := Strict(argv[1]);
        if n.Number? && 0 <= n.value < eng.dbnum then s.(db := n.value) else s
    else
      s.(ds := Execute(eng, true, t, false, s.ds, s.db, argv).ds)
  }

  predicate Commands(cmds: seq<Argv>) {
    forall i :: 0 <= i < |cmds| ==> cmds[i] != []
  }

  function RunAll(eng: Engine, t: int, s: Session, cmds: seq<Argv>): Session
    requires Commands(cmds)
    decreases |cmds|
  {
    if cmds == [] then s else RunAll(eng, t, RunOne(eng, t, s, cmds[0]), cmds[1..])
  }

  lemma {:induction false} RunAllConcat(eng: Engine, t: int, s: Session, a: seq<Argv>, b: seq<Argv>)
    requires Commands(a) && Commands(b)
    ensures RunAll(eng, t, s, a + b) == RunAll(eng, t, RunAll(eng, t, s, a), b)
    decreases |a|
  {
    if a == [] {
      assert a + b == b;
    } else {
      assert (a + b)[0] == a[0] && (a + b)[1..] == a[1..] + b;
      RunAllConcat(eng, t, RunOne(eng, t, s, a[0]), a[1..], b);
    }
  }

  lemma RunAllOne(eng: Engine, t: int, s: Session, c: Argv)
    requires c != []
    ensures RunAll(eng, t, s, [c]) == RunOne(eng, t, s, c)
  {
    assert [c][1..] == [];
  }

  /** The loader's client; queue is Some while a MULTI is open. */
  datatype Loader = Loader(session: Session, queue: Option<seq<Argv>>)

  predicate ValidLoader(l: Loader) {
    l.queue.Some? ==> Commands(l.queue.value)
  }

  const START := Loader(FRESH, None)

  /** loadAppendOnlyFile's dispatch: queue inside a MULTI, except for EXEC. */
  function LoadStep(eng: Engine, t: int, l: Loader, argv: Argv): (r: Loader)
    requires argv != [] && ValidLoader(l)
    ensures ValidLoader(r)
  {
    if l.queue.Some? && eng.kindOf(argv[0]) != ExecCmd then Loader(l.session, Some(l.queue.value + [argv]))
    else if eng.kindOf(argv[0]) == MultiCmd then Loader(l.session, Some([]))
    else if eng.kindOf(argv[0]) == ExecCmd then Loader(Settle(eng, t, l), None)
    else Loader(RunOne(eng, t, l.session, argv), None)
  }

  /** The session after the open transaction, if any, ran. */
  function Settle(eng: Engine, t: int, l: Loader): Session
    requires ValidLoader(l)
  {
    if l.queue.None? then l.session else RunAll(eng, t, l.session, l.queue.value)
  }

  function LoadAll(eng: Engine, t: int, l: Loader, cmds: seq<Argv>): (r: Loader)
    requires Commands(cmds) && ValidLoader(l)
    ensures ValidLoader(r)
    decreases |cmds|
  {
    if cmds == [] then l else LoadAll(eng, t, LoadStep(eng, t, l, cmds[0]), cmds[1..])
  }

  lemma {:induction false} LoadAllConcat(eng: Engine, t: int, l: Loader, a: seq<Argv>, b: seq<Argv>)
    requires Commands(a) && Commands(b) && ValidLoader(l)
    ensures LoadAll(eng, t, l, a + b) == LoadAll(eng, t, LoadAll(eng, t, l, a), b)
    decreases |a|
  {
    if a == [] {
      assert a + b == b;
    } else {
      assert (a + b)[0] == a[0] && (a + b)[1..] == a[1..] + b;
      LoadAllConcat(eng, t, LoadStep(eng, t, l, a[0]), a[1..], b);
    }
  }

  /** Queueing only delays: settling after a command is running it after settling. */
  lemma SettleStep(eng: Engine, t: int, l: Loader, argv: Argv)
    requires argv != [] && ValidLoader(l)
    ensures Settle(eng, t, LoadStep(eng, t, l, argv)) == RunOne(eng, t, Settle(eng, t, l), argv)
  {
    if l.queue.Some? && eng.kindOf(argv[0]) != ExecCmd {
      RunAllConcat(eng, t, l.session, l.queue.value, [argv]);
      RunAllOne(eng, t, Settle(eng, t, l), argv);
    }
  }

  lemma {:induction false} SettleAll(eng: Engine, t: int, l: Loader, cmds: seq<Argv>)
    requires Commands(cmds) && ValidLoader(l)
    ensures Settle(eng, t, LoadAll(eng, t, l, cmds)) == RunAll(eng, t, Settle(eng, t, l), cmds)
    decreases |cmds|
  {
    if cmds == [] {
    } else {
      SettleStep(eng, t, l, cmds[0]);
      SettleAll(eng, t, LoadStep(eng, t, l, cmds[0]), cmds[1..]);
    }
  }
}
