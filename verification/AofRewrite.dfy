/**
  The rewrite of the dataset into commands (rewriteAppendOnlyFileRio and the rewrite*Object
  functions) and its replay. A dump is the dataset in the order in which the iterators
  happen to visit it; nothing is assumed about that order.
 */
module AofRewrite {
  import opened Decimal
  import opened Resp
  import opened Text
  import opened Store
  import opened AofFeed

  /** An aggregate is dumped as items; an item is the bulk strings written for one element:
      [element], [score, member] or [field, value]. */
  datatype DumpValue = Plain(text: Bytes) | Aggregate(kind: Kind, items: seq<Argv>)

  datatype DumpEntry = DumpEntry(name: Bytes, value: DumpValue, expire: int)

  type Dump = seq<seq<DumpEntry>>

  function Width(kind: Kind): nat {
    if kind == ZaddCmd || kind == HmsetCmd then 2 else 1
  }

  predicate IsAggregate(kind: Kind) {
    kind in {RpushCmd, SaddCmd, ZaddCmd, HmsetCmd}
  }

  function CommandName(kind: Kind): Bytes
    requires IsAggregate(kind)
  {
    match kind
    case RpushCmd => "RPUSH"
    case SaddCmd => "SADD"
    case ZaddCmd => "ZADD"
    case HmsetCmd => "HMSET"
  }

  function Flat(items: seq<Argv>): Argv {
    if items == [] then [] else items[0] + Flat(items[1..])
  }

  /** The value that a dumped aggregate stands for. */
  function Built(kind: Kind, flat: Argv): Value
    requires IsAggregate(kind)
  {
    match kind
    case RpushCmd => List(flat)
    case SaddCmd => Set(set x | x in flat)
    case ZaddCmd => ZSet(AddPairs(map[], flat, true))
    case HmsetCmd => Hash(AddPairs(map[], flat, false))
  }

  predicate ItemOk(eng: Engine, kind: Kind, item: Argv) {
    && |item| == Width(kind)
    && (kind == ZaddCmd ==> eng.score(item[0]) == Some(item[0]))
  }

  predicate EntryOk(eng: Engine, e: DumpEntry) {
    && LLONG_MIN <= e.expire <= LLONG_MAX
    && (e.value.Aggregate? ==>
          IsAggregate(e.value.kind) &&
          forall i :: 0 <= i < |e.value.items| ==> ItemOk(eng, e.value.kind, e.value.items[i]))
  }

  predicate IsEmpty(e: DumpEntry) {
    e.value.Aggregate? && e.value.items == []
  }

  function EntryOf(eng: Engine, e: DumpEntry): Entry
    requires EntryOk(eng, e)
  {
    Entry(if e.value.Plain? then Str(e.value.text) else Built(e.value.kind, Flat(e.value.items)), e.expire)
  }

  /** Text that reads as a score is not one of ZADD's option words. */
  ghost predicate ScoresAreNumbers(eng: Engine) {
    forall s: Bytes :: eng.score(s).Some? ==> !IsZaddOption(s)
  }

  // ----- the commands written -----------------------------------------------

  /** At most n items per command, all commands but the last one full. */
  function Batches(name: Bytes, key: Bytes, items: seq<Argv>, n: nat): (cmds: seq<Argv>)
    requires n >= 1
    ensures Commands(cmds)
    decreases |items|
  {
    if items == [] then []
    else
      var k := if |items| > n then n else |items|;
      [[name, key] + Flat(items[..k])] + Batches(name, key, items[k..], n)
  }

  function ValueCommands(eng: Engine, e: DumpEntry, n: nat): (cmds: seq<Argv>)
    requires EntryOk(eng, e) && n >= 1
    ensures Commands(cmds)
  {
    match e.value
    case Plain(text) => [["SET", e.name, text]]
    case Aggregate(kind, items) => Batches(CommandName(kind), e.name, items, n)
  }

  function EntryCommands(eng: Engine, e: DumpEntry, n: nat): (cmds: seq<Argv>)
    requires EntryOk(eng, e) && n >= 1
    ensures Commands(cmds)
  {
    ValueCommands(eng, e, n) + (if e.expire != -1 then [Pexpireat(e.name, e.expire)] else [])
  }

  predicate EntriesOk(eng: Engine, entries: seq<DumpEntry>) {
    forall i :: 0 <= i < |entries| ==> EntryOk(eng, entries[i])
  }

  function EntriesCommands(eng: Engine, entries: seq<DumpEntry>, n: nat): (cmds: seq<Argv>)
    requires EntriesOk(eng, entries) && n >= 1
    ensures Commands(cmds)
    decreases |entries|
  {
    if entries == [] then []
    else EntryCommands(eng, entries[0], n) + EntriesCommands(eng, entries[1..], n)
  }

  predicate DumpOk(eng: Engine, dump: Dump) {
    && |dump| == eng.dbnum <= LLONG_MAX
    && forall j :: 0 <= j < |dump| ==> EntriesOk(eng, dump[j])
  }

  function DbCommands(eng: Engine, j: nat, entries: seq<DumpEntry>, n: nat): (cmds: seq<Argv>)
    requires EntriesOk(eng, entries) && n >= 1
    ensures Commands(cmds)
  {
    [SelectCommand(j)] + EntriesCommands(eng, entries, n)
  }

  /** Databases from j on; an empty database is skipped without a SELECT. */
  function RewriteFrom(eng: Engine, dump: Dump, j: nat, n: nat): (cmds: seq<Argv>)
    requires DumpOk(eng, dump) && j <= |dump| && n >= 1
    ensures Commands(cmds)
    decreases |dump| - j
  {
    if j == |dump| then []
    else if dump[j] == [] then RewriteFrom(eng, dump, j + 1, n)
    else DbCommands(eng, j, dump[j], n) + RewriteFrom(eng, dump, j + 1, n)
  }

  function RewriteCommands(eng: Engine, dump: Dump, n: nat): (cmds: seq<Argv>)
    requires DumpOk(eng, dump) && n >= 1
    ensures Commands(cmds)
  {
    RewriteFrom(eng, dump, 0, n)
  }

  // ----- replaying an aggregate ---------------------------------------------

  lemma {:induction false} FlatConcat(a: seq<Argv>, b: seq<Argv>)
    ensures Flat(a + b) == Flat(a) + Flat(b)
  {
    if a == [] {
      assert a + b == b;
    } else {
      assert (a + b)[1..] == a[1..] + b;
      FlatConcat(a[1..], b);
    }
  }

  lemma {:induction false} FlatLength(eng: Engine, kind: Kind, items: seq<Argv>)
    requires forall i :: 0 <= i < |items| ==> ItemOk(eng, kind, items[i])
    ensures |Flat(items)| == if Width(kind) == 2 then 2 * |items| else |items|
    ensures Width(kind) == 2 ==> |Flat(items)| % 2 == 0
    decreases |items|
  {
    if items == [] {
    } else {
      FlatLength(eng, kind, items[1..]);
    }
  }

  lemma {:induction false} AddPairsConcat(m: map<Bytes, Bytes>, a: Argv, b: Argv, scoreFirst: bool)
    requires |a| % 2 == 0
    ensures AddPairs(m, a + b, scoreFirst) == AddPairs(AddPairs(m, a, scoreFirst), b, scoreFirst)
    decreases |a|
  {
    if a == [] {
      assert a + b == b;
    } else {
      assert (a + b)[2..] == a[2..] + b;
      var m' := if scoreFirst then m[a[1] := a[0]] else m[a[0] := a[1]];
      AddPairsConcat(m', a[2..], b, scoreFirst);
    }
  }

  lemma {:induction false} ScoresUnchanged(eng: Engine, items: seq<Argv>)
    requires forall i :: 0 <= i < |items| ==> ItemOk(eng, ZaddCmd, items[i])
    ensures Scores(eng, Flat(items)) == Some(Flat(items))
    decreases |items|
  {
    if items == [] {
    } else {
      var f := Flat(items);
      assert f[..2] == items[0] && f[2..] == Flat(items[1..]);
      assert f == [f[0], f[1]] + f[2..];
      ScoresUnchanged(eng, items[1..]);
    }
  }

  /** What is stored under key while its first items have been replayed. */
  function Partly(ds: Dataset, key: Key, kind: Kind, done: seq<Argv>): Dataset
    requires IsAggregate(kind)
  {
    if done == [] then ds else ds[key := Entry(Built(kind, Flat(done)), -1)]
  }

  lemma NamesKnown(eng: Engine, kind: Kind)
    requires KnowsNames(eng) && IsAggregate(kind)
    ensures eng.kindOf(CommandName(kind)) == kind
  {
  }

  /** Appending to a built value is building from the longer argument list. */
  lemma BuiltConcat(kind: Kind, a: Argv, b: Argv)
    requires IsAggregate(kind) && (Width(kind) == 2 ==> |a| % 2 == 0)
    ensures match kind
            case RpushCmd => Built(kind, a + b) == List(a + b)
            case SaddCmd => Built(kind, a + b) == Set((set x | x in a) + (set x | x in b))
            case ZaddCmd => Built(kind, a + b) == ZSet(AddPairs(AddPairs(map[], a, true), b, true))
            case HmsetCmd => Built(kind, a + b) == Hash(AddPairs(AddPairs(map[], a, false), b, false))
  {
    match kind
    case RpushCmd =>
    case SaddCmd => assert (set x | x in a + b) == (set x | x in a) + (set x | x in b);
    case ZaddCmd => AddPairsConcat(map[], a, b, true);
    case HmsetCmd => AddPairsConcat(map[], a, b, false);
  }

  lemma BuiltEmpty(kind: Kind)
    requires IsAggregate(kind)
    ensures Built(kind, []) == Empty(kind)
  {
    assert (set x: Bytes | x in []) == {};
  }

  lemma GrowBuilt(eng: Engine, ds: Dataset, key: Key, kind: Kind, a: Argv, b: Argv)
    requires IsAggregate(kind) && (Width(kind) == 2 ==> |a| % 2 == 0)
    requires kind == ZaddCmd ==> Scores(eng, b) == Some(b)
    requires key in ds ==> ds[key] == Entry(Built(kind, a), -1)
    requires key !in ds ==> a == []
    ensures Grow(eng, ds, key, kind, b) == ds[key := Entry(Built(kind, a + b), -1)]
  {
    BuiltConcat(kind, a, b);
    BuiltEmpty(kind);
  }

  lemma GrowPartly(eng: Engine, ds: Dataset, key: Key, kind: Kind, done: seq<Argv>, chunk: seq<Argv>)
    requires IsAggregate(kind) && key !in ds && chunk != []
    requires forall i :: 0 <= i < |done| ==> ItemOk(eng, kind, done[i])
    requires forall i :: 0 <= i < |chunk| ==> ItemOk(eng, kind, chunk[i])
    ensures Grow(eng, Partly(ds, key, kind, done), key, kind, Flat(chunk)) == Partly(ds, key, kind, done + chunk)
  {
    var was := Partly(ds, key, kind, done);
    assert key in was ==> was[key] == Entry(Built(kind, Flat(done)), -1);
    assert key !in was ==> Flat(done) == [];
    hide Grow;
    hide Built;
    hide Flat;
    FlatConcat(done, chunk);
    FlatLength(eng, kind, done);
    if kind == ZaddCmd { ScoresUnchanged(eng, chunk); }
    GrowBuilt(eng, was, key, kind, Flat(done), Flat(chunk));
    PartlyTwice(ds, key, kind, done, chunk);
  }

  lemma PartlyTwice(ds: Dataset, key: Key, kind: Kind, done: seq<Argv>, chunk: seq<Argv>)
    requires IsAggregate(kind) && chunk != []
    ensures Partly(ds, key, kind, done)[key := Entry(Built(kind, Flat(done + chunk)), -1)] ==
            Partly(ds, key, kind, done + chunk)
  {
    hide Built;
    hide Flat;
  }

  /** An aggregate command with items is handled by Grow, at load time too. */
  lemma RunGrow(eng: Engine, t: int, s: Session, argv: Argv)
    requires GrowsHere(eng, argv)
    ensures RunOne(eng, t, s, argv) ==
            s.(ds := Grow(eng, s.ds, Key(s.db, argv[1]), eng.kindOf(argv[0]), argv[2..]))
  {
    hide Grow;
  }

  lemma FlatHead(chunk: seq<Argv>)
    requires chunk != [] && |chunk[0]| >= 1
    ensures |Flat(chunk)| >= 1 && Flat(chunk)[0] == chunk[0][0]
  {
  }

  lemma HeadedGrowsHere(eng: Engine, cmd: Bytes, name: Bytes, kind: Kind, flat: Argv)
    requires eng.kindOf(cmd) == kind && IsAggregate(kind) && flat != []
    requires Width(kind) == 2 ==> |flat| % 2 == 0
    requires kind == ZaddCmd ==> !IsZaddOption(flat[0])
    ensures var argv := [cmd, name] + flat;
            eng.kindOf(argv[0]) == kind && argv[2..] == flat && GrowsHere(eng, argv)
  {
    hide IsZaddOption;
    var argv := [cmd, name] + flat;
    assert argv[0] == cmd && argv[2] == flat[0] && |argv| == 2 + |flat|;
  }

  lemma BatchGrowsHere(eng: Engine, name: Bytes, kind: Kind, chunk: seq<Argv>)
    requires KnowsNames(eng) && ScoresAreNumbers(eng)
    requires IsAggregate(kind) && chunk != []
    requires forall i :: 0 <= i < |chunk| ==> ItemOk(eng, kind, chunk[i])
    ensures var argv := [CommandName(kind), name] + Flat(chunk);
            eng.kindOf(argv[0]) == kind && argv[2..] == Flat(chunk) && GrowsHere(eng, argv)
  {
    hide IsZaddOption;
    NamesKnown(eng, kind);
    hide KnowsNames;
    hide CommandName;
    FlatLength(eng, kind, chunk);
    FlatHead(chunk);
    assert ItemOk(eng, kind, chunk[0]);
    if kind == ZaddCmd {
      assert eng.score(Flat(chunk)[0]).Some?;
      assert !IsZaddOption(Flat(chunk)[0]);
    }
    HeadedGrowsHere(eng, CommandName(kind), name, kind, Flat(chunk));
  }

  lemma RunBatch(eng: Engine, t: int, s: Session, name: Bytes, kind: Kind, done: seq<Argv>, chunk: seq<Argv>, ds: Dataset)
    requires KnowsNames(eng) && ScoresAreNumbers(eng)
    requires IsAggregate(kind) && Key(s.db, name) !in ds && chunk != []
    requires forall i :: 0 <= i < |done| ==> ItemOk(eng, kind, done[i])
    requires forall i :: 0 <= i < |chunk| ==> ItemOk(eng, kind, chunk[i])
    requires s.ds == Partly(ds, Key(s.db, name), kind, done)
    ensures RunOne(eng, t, s, [CommandName(kind), name] + Flat(chunk)) ==
            s.(ds := Partly(ds, Key(s.db, name), kind, done + chunk))
  {
    hide RunOne;
    hide Partly;
    hide GrowsHere;
    hide Grow;
    var argv := [CommandName(kind), name] + Flat(chunk);
    BatchGrowsHere(eng, name, kind, chunk);
    RunGrow(eng, t, s, argv);
    GrowPartly(eng, ds, Key(s.db, name), kind, done, chunk);
  }

  lemma {:induction false} RunBatches(eng: Engine, t: int, s: Session, name: Bytes, kind: Kind,
                                      done: seq<Argv>, rest: seq<Argv>, n: nat, ds: Dataset)
    requires KnowsNames(eng) && ScoresAreNumbers(eng) && n >= 1
    requires IsAggregate(kind) && Key(s.db, name) !in ds
    requires forall i :: 0 <= i < |done| ==> ItemOk(eng, kind, done[i])
    requires forall i :: 0 <= i < |rest| ==> ItemOk(eng, kind, rest[i])
    requires s.ds == Partly(ds, Key(s.db, name), kind, done)
    ensures RunAll(eng, t, s, Batches(CommandName(kind), name, rest, n)) ==
            s.(ds := Partly(ds, Key(s.db, name), kind, done + rest))
    decreases |rest|
  {
    hide RunOne;
    hide ItemOk;
    hide CommandName;
    hide KnowsNames;
    hide Execute;
    hide Partly;
    hide Flat;
    if rest == [] {
      assert done + rest == done;
    } else {
      var k := if |rest| > n then n else |rest|;
      RunBatch(eng, t, s, name, kind, done, rest[..k], ds);
      var s' := s.(ds := Partly(ds, Key(s.db, name), kind, done + rest[..k]));
      RunBatches(eng, t, s', name, kind, done + rest[..k], rest[k..], n, ds);
      assert done + rest[..k] + rest[k..] == done + rest;
      var cmds := Batches(CommandName(kind), name, rest, n);
      assert cmds[1..] == Batches(CommandName(kind), name, rest[k..], n);
    }
  }

  // ----- replaying entries and databases ------------------------------------

  /** What replaying one entry adds: nothing when it is an empty aggregate. */
  function Added(eng: Engine, ds: Dataset, db: nat, e: DumpEntry): Dataset
    requires EntryOk(eng, e)
  {
    if IsEmpty(e) then ds else ds[Key(db, e.name) := EntryOf(eng, e)]
  }

  lemma RunSet(eng: Engine, t: int, s: Session, name: Bytes, text: Bytes)
    requires KnowsNames(eng)
    ensures RunOne(eng, t, s, ["SET", name, text]) == s.(ds := s.ds[Key(s.db, name) := Entry(Str(text), -1)])
  {
    assert ["SET", name, text][3..] == [];
  }

  lemma RunValue(eng: Engine, t: int, s: Session, e: DumpEntry, n: nat)
    requires KnowsNames(eng) && ScoresAreNumbers(eng) && n >= 1 && EntryOk(eng, e)
    requires Key(s.db, e.name) !in s.ds
    ensures RunAll(eng, t, s, ValueCommands(eng, e, n)) == s.(ds := Added(eng, s.ds, s.db, e.(expire := -1)))
  {
    hide RunOne;
    hide RunAll;
    hide Batches;
    hide KnowsNames;
    hide Built;
    hide Flat;
    hide ItemOk;
    match e.value
    case Plain(text) =>
      var c := ["SET", e.name, text];
      RunAllOne(eng, t, s, c);
      RunSet(eng, t, s, e.name, text);
    case Aggregate(kind, items) =>
      RunBatches(eng, t, s, e.name, kind, [], items, n, s.ds);
      assert [] + items == items;
  }

  lemma RunPexpireatMissing(eng: Engine, t: int, s: Session, key: Bytes, when: int)
    requires KnowsNames(eng) && Key(s.db, key) !in s.ds
    ensures RunOne(eng, t, s, Pexpireat(key, when)) == s
  {
  }

  lemma RunNothing(eng: Engine, t: int, s: Session)
    ensures RunAll(eng, t, s, []) == s
  {
  }

  lemma RunEntry(eng: Engine, t: int, s: Session, e: DumpEntry, n: nat)
    requires KnowsNames(eng) && ScoresAreNumbers(eng) && n >= 1 && EntryOk(eng, e)
    requires Key(s.db, e.name) !in s.ds
    ensures RunAll(eng, t, s, EntryCommands(eng, e, n)) == s.(ds := Added(eng, s.ds, s.db, e))
  {
    hide RunOne;
    hide RunAll;
    hide Built;
    hide Flat;
    hide KnowsNames;
    hide Execute;
    hide ValueCommands;
    RunValue(eng, t, s, e, n);
    var s1 := s.(ds := Added(eng, s.ds, s.db, e.(expire := -1)));
    var tail := if e.expire != -1 then [Pexpireat(e.name, e.expire)] else [];
    RunAllConcat(eng, t, s, ValueCommands(eng, e, n), tail);
    RunNothing(eng, t, s1);
    if e.expire != -1 {
      RunAllOne(eng, t, s1, tail[0]);
      if IsEmpty(e) {
        RunPexpireatMissing(eng, t, s1, e.name, e.expire);
      } else {
        RunPexpireat(eng, t, s1, e.name, e.expire);
      }
    }
  }

  predicate Distinct(entries: seq<DumpEntry>) {
    forall i, k :: 0 <= i < k < |entries| ==> entries[i].name != entries[k].name
  }

  function AddedAll(eng: Engine, ds: Dataset, db: nat, entries: seq<DumpEntry>): Dataset
    requires EntriesOk(eng, entries)
    decreases |entries|
  {
    if entries == [] then ds else AddedAll(eng, Added(eng, ds, db, entries[0]), db, entries[1..])
  }

  lemma {:induction false} RunEntries(eng: Engine, t: int, s: Session, entries: seq<DumpEntry>, n: nat)
    requires KnowsNames(eng) && ScoresAreNumbers(eng) && n >= 1 && EntriesOk(eng, entries)
    requires Distinct(entries)
    requires forall i :: 0 <= i < |entries| ==> Key(s.db, entries[i].name) !in s.ds
    ensures RunAll(eng, t, s, EntriesCommands(eng, entries, n)) == s.(ds := AddedAll(eng, s.ds, s.db, entries))
    decreases |entries|
  {
    hide RunOne;
    hide EntryCommands;
    hide EntryOk;
    hide EntryOf;
    hide KnowsNames;
    if entries == [] {
    } else {
      RunEntry(eng, t, s, entries[0], n);
      RunAllConcat(eng, t, s, EntryCommands(eng, entries[0], n), EntriesCommands(eng, entries[1..], n));
      RunEntries(eng, t, s.(ds := Added(eng, s.ds, s.db, entries[0])), entries[1..], n);
    }
  }

  /** Membership and content of AddedAll, key by key. */
  lemma {:induction false} AddedAllAt(eng: Engine, ds: Dataset, db: nat, entries: seq<DumpEntry>, k: Key)
    requires EntriesOk(eng, entries) && Distinct(entries)
    ensures var r := AddedAll(eng, ds, db, entries);
            && (k.db != db ==> (k in r <==> k in ds) && (k in ds ==> r[k] == ds[k]))
            && (k.db == db && (forall i :: 0 <= i < |entries| ==> entries[i].name != k.name) ==>
                  (k in r <==> k in ds) && (k in ds ==> r[k] == ds[k]))
    ensures forall i :: 0 <= i < |entries| && Key(db, entries[i].name) == k ==>
            var r := AddedAll(eng, ds, db, entries);
            if IsEmpty(entries[i]) then (k in r <==> k in ds) && (k in ds ==> r[k] == ds[k])
            else k in r && r[k] == EntryOf(eng, entries[i])
    decreases |entries|
  {
    if entries == [] {
    } else {
      var tail := entries[1..];
      var ds1 := Added(eng, ds, db, entries[0]);
      AddedAllAt(eng, ds1, db, tail, k);
      forall i | 0 <= i < |entries| && Key(db, entries[i].name) == k
        ensures var r := AddedAll(eng, ds, db, entries);
                if IsEmpty(entries[i]) then (k in r <==> k in ds) && (k in ds ==> r[k] == ds[k])
                else k in r && r[k] == EntryOf(eng, entries[i])
      {
        if i > 0 {
          assert tail[i - 1] == entries[i];
          assert entries[0].name != entries[i].name;
        } else {
          assert forall m :: 0 <= m < |tail| ==> tail[m].name != k.name;
        }
      }
    }
  }

  /** ds is exactly what the dump visits: every entry once, in any order. */
  ghost predicate Enumerates(eng: Engine, dump: Dump, ds: Dataset)
    requires DumpOk(eng, dump)
  {
    && (forall j :: 0 <= j < |dump| ==> Distinct(dump[j]))
    && (forall j, i :: 0 <= j < |dump| && 0 <= i < |dump[j]| ==>
          Key(j, dump[j][i].name) in ds && ds[Key(j, dump[j][i].name)] == EntryOf(eng, dump[j][i]))
    && (forall k :: k in ds ==> k.db < |dump| && Visits(dump[k.db], k.name))
  }

  predicate Visits(entries: seq<DumpEntry>, name: Bytes) {
    exists i :: 0 <= i < |entries| && entries[i].name == name
  }

  predicate NoEmptyAggregate(dump: Dump) {
    forall j, i :: 0 <= j < |dump| && 0 <= i < |dump[j]| ==> !IsEmpty(dump[j][i])
  }

  /** The part of ds that replaying the databases below j rebuilds. */
  ghost predicate RebuiltBelow(eng: Engine, dump: Dump, ds: Dataset, j: nat, r: Dataset)
    requires DumpOk(eng, dump)
  {
    && (forall k :: k in r ==> k.db < j && k in ds && r[k] == ds[k])
    && (forall d, i :: 0 <= d < |dump| && 0 <= i < |dump[d]| ==>
          (Key(d, dump[d][i].name) in r <==> d < j && !IsEmpty(dump[d][i])))
  }

  lemma RebuildDb(eng: Engine, dump: Dump, ds: Dataset, j: nat, r: Dataset)
    requires DumpOk(eng, dump) && Enumerates(eng, dump, ds) && j < |dump|
    requires RebuiltBelow(eng, dump, ds, j, r)
    ensures RebuiltBelow(eng, dump, ds, j + 1, AddedAll(eng, r, j, dump[j]))
  {
    var r' := AddedAll(eng, r, j, dump[j]);
    forall k | k in r' ensures k.db < j + 1 && k in ds && r'[k] == ds[k] {
      AddedAllAt(eng, r, j, dump[j], k);
      if k.db == j && exists i :: 0 <= i < |dump[j]| && dump[j][i].name == k.name {
        var i :| 0 <= i < |dump[j]| && dump[j][i].name == k.name;
        assert Key(j, dump[j][i].name) == k;
      }
    }
    forall d, i | 0 <= d < |dump| && 0 <= i < |dump[d]|
      ensures Key(d, dump[d][i].name) in r' <==> d < j + 1 && !IsEmpty(dump[d][i])
    {
      AddedAllAt(eng, r, j, dump[j], Key(d, dump[d][i].name));
    }
  }

  lemma NotYetRebuilt(eng: Engine, dump: Dump, ds: Dataset, j: nat, r: Dataset)
    requires DumpOk(eng, dump) && Enumerates(eng, dump, ds) && j < |dump|
    requires RebuiltBelow(eng, dump, ds, j, r)
    ensures EntriesOk(eng, dump[j]) && Distinct(dump[j])
    ensures forall i :: 0 <= i < |dump[j]| ==> Key(j, dump[j][i].name) !in r
  {
  }

  lemma RunDb(eng: Engine, t: int, s: Session, entries: seq<DumpEntry>, j: nat, n: nat, tail: seq<Argv>)
    requires KnowsNames(eng) && ScoresAreNumbers(eng) && n >= 1 && EntriesOk(eng, entries)
    requires j < eng.dbnum <= LLONG_MAX && Distinct(entries) && Commands(tail)
    requires forall i :: 0 <= i < |entries| ==> Key(j, entries[i].name) !in s.ds
    ensures RunAll(eng, t, s, DbCommands(eng, j, entries, n) + tail) ==
            RunAll(eng, t, Session(AddedAll(eng, s.ds, j, entries), j), tail)
  {
    hide RunOne;
    hide RunAll;
    hide EntryOk;
    hide AddedAll;
    var body := EntriesCommands(eng, entries, n);
    var sel := [SelectCommand(j)];
    RunSelect(eng, t, s, j);
    RunAllOne(eng, t, s, SelectCommand(j));
    RunEntries(eng, t, s.(db := j), entries, n);
    RunAllConcat(eng, t, s, sel, body);
    RunAllConcat(eng, t, s, DbCommands(eng, j, entries, n), tail);
  }

  lemma {:induction false} RunRewrite(eng: Engine, t: int, s: Session, dump: Dump, ds: Dataset, j: nat, n: nat)
    requires KnowsNames(eng) && ScoresAreNumbers(eng) && n >= 1
    requires DumpOk(eng, dump) && Enumerates(eng, dump, ds) && j <= |dump|
    requires RebuiltBelow(eng, dump, ds, j, s.ds)
    ensures RebuiltBelow(eng, dump, ds, |dump|, RunAll(eng, t, s, RewriteFrom(eng, dump, j, n)).ds)
    decreases |dump| - j
  {
    hide RunOne;
    hide RebuiltBelow;
    hide Enumerates;
    hide DbCommands;
    hide Distinct;
    hide EntryOk;
    if j == |dump| {
    } else {
      NotYetRebuilt(eng, dump, ds, j, s.ds);
      RebuildDb(eng, dump, ds, j, s.ds);
      if dump[j] == [] {
        RunRewrite(eng, t, s, dump, ds, j + 1, n);
      } else {
        RunDb(eng, t, s, dump[j], j, n, RewriteFrom(eng, dump, j + 1, n));
        RunRewrite(eng, t, Session(AddedAll(eng, s.ds, j, dump[j]), j), dump, ds, j + 1, n);
      }
    }
  }

  lemma AllRebuilt(eng: Engine, dump: Dump, ds: Dataset, r: Dataset)
    requires DumpOk(eng, dump) && Enumerates(eng, dump, ds)
    requires RebuiltBelow(eng, dump, ds, |dump|, r)
    ensures r == ds <==> NoEmptyAggregate(dump)
  {
    if NoEmptyAggregate(dump) {
      forall k | k in ds ensures k in r {
        var i :| 0 <= i < |dump[k.db]| && dump[k.db][i].name == k.name;
        assert Key(k.db, dump[k.db][i].name) == k;
      }
    } else {
      var j, i :| 0 <= j < |dump| && 0 <= i < |dump[j]| && IsEmpty(dump[j][i]);
      assert Key(j, dump[j][i].name) !in r;
    }
  }

  /** Replaying a rewritten dataset on an empty server rebuilds it exactly, values, expires and
      databases, for every iteration order and every batch size, if and only if no list, set,
      sorted set or hash in it is empty. */
  lemma RewriteRebuilds(eng: Engine, t: int, dump: Dump, ds: Dataset, n: nat)
    requires KnowsNames(eng) && ScoresAreNumbers(eng) && n >= 1
    requires DumpOk(eng, dump) && Enumerates(eng, dump, ds)
    ensures RunAll(eng, t, FRESH, RewriteCommands(eng, dump, n)).ds == ds <==> NoEmptyAggregate(dump)
  {
    hide RunAll;
    hide RewriteFrom;
    hide Enumerates;
    hide NoEmptyAggregate;
    assert RebuiltBelow(eng, dump, ds, 0, FRESH.ds);
    RunRewrite(eng, t, FRESH, dump, ds, 0, n);
    AllRebuilt(eng, dump, ds, RunAll(eng, t, FRESH, RewriteCommands(eng, dump, n)).ds);
  }

  /** Every command of a batch carries at most n items, none is empty. */
  lemma {:induction false} BatchBound(eng: Engine, kind: Kind, name: Bytes, key: Bytes, items: seq<Argv>, n: nat)
    requires n >= 1 && forall i :: 0 <= i < |items| ==> ItemOk(eng, kind, items[i])
    ensures forall c :: c in Batches(name, key, items, n) ==> 2 + Width(kind) <= |c| <= 2 + n * Width(kind)
    decreases |items|
  {
    if items == [] {
    } else {
      var k := if |items| > n then n else |items|;
      FlatLength(eng, kind, items[..k]);
      BatchBound(eng, kind, name, key, items[k..], n);
    }
  }

  lemma OneMoreBatch(b: nat, n: nat, k: nat)
    requires b >= 1 && (b - 1) * n < k <= b * n
    ensures b * n < k + n <= (b + 1) * n
  {
  }

  lemma {:induction false} BatchCount(name: Bytes, key: Bytes, items: seq<Argv>, n: nat)
    requires n >= 1
    ensures var b := |Batches(name, key, items, n)|;
            (items == [] ==> b == 0) && (items != [] ==> b >= 1 && (b - 1) * n < |items| <= b * n)
    decreases |items|
  {
    hide Flat;
    if items != [] {
      var k := if |items| > n then n else |items|;
      BatchCount(name, key, items[k..], n);
      if k < |items| { OneMoreBatch(|Batches(name, key, items[k..], n)|, n, |items| - n); }
    }
  }

  /** All commands of an aggregate but the last are full, so there are as few as possible. */
  lemma {:induction false} BatchesAreFull(eng: Engine, kind: Kind, name: Bytes, key: Bytes, items: seq<Argv>, n: nat)
    requires n >= 1 && forall i :: 0 <= i < |items| ==> ItemOk(eng, kind, items[i])
    ensures var b := Batches(name, key, items, n);
            && (forall i :: 0 <= i < |b| - 1 ==> |b[i]| == 2 + n * Width(kind))
            && (items == [] ==> b == []) && (items != [] ==> (|b| - 1) * n < |items| <= |b| * n)
    decreases |items|
  {
    BatchCount(name, key, items, n);
    if items != [] {
      var k := if |items| > n then n else |items|;
      FlatLength(eng, kind, items[..k]);
      BatchesAreFull(eng, kind, name, key, items[k..], n);
      var b, rest := Batches(name, key, items, n), Batches(name, key, items[k..], n);
      forall i | 0 <= i < |b| - 1 ensures |b[i]| == 2 + n * Width(kind) {
        if i > 0 { assert b[i] == rest[i - 1]; }
      }
    }
  }

  // ----- the loops that write the bytes -------------------------------------

  lemma {:induction false} BatchesSnoc(name: Bytes, key: Bytes, full: seq<Argv>, chunk: seq<Argv>, n: nat)
    requires n >= 1 && FullChunks(|full|, n) && 0 < |chunk| <= n
    ensures Batches(name, key, full + chunk, n) == Batches(name, key, full, n) + [[name, key] + Flat(chunk)]
    decreases |full|
  {
    if full == [] {
      assert full + chunk == chunk && chunk[..|chunk|] == chunk && chunk[|chunk|..] == [];
    } else {
      assert (full + chunk)[..n] == full[..n] && (full + chunk)[n..] == full[n..] + chunk;
      BatchesSnoc(name, key, full[n..], chunk, n);
    }
  }

  /** k is a multiple of n. */
  predicate FullChunks(k: nat, n: nat)
    requires n >= 1
    decreases k
  {
    k == 0 || (k >= n && FullChunks(k - n, n))
  }

  lemma {:induction false} OneMoreChunk(k: nat, n: nat)
    requires n >= 1 && FullChunks(k, n)
    ensures FullChunks(k + n, n)
  {
  }

  /** What the file holds of a command whose header announced `announced` items while only
      `chunk` of them are written. */
  function Unfinished(name: Bytes, key: Bytes, announced: nat, width: nat, chunk: seq<Argv>): Bytes {
    if chunk == [] then "" else Header('*', 2 + announced * width) + EncodeArgs([name, key] + Flat(chunk))
  }

  /** The bytes of an unfinished command just before an item is written. */
  function Opened(name: Bytes, key: Bytes, announced: nat, width: nat, chunk: seq<Argv>): Bytes {
    Header('*', 2 + announced * width) + EncodeArgs([name, key] + Flat(chunk))
  }

  lemma UnfinishedGrows(name: Bytes, key: Bytes, announced: nat, width: nat, chunk: seq<Argv>, item: Argv)
    ensures Opened(name, key, announced, width, chunk) + EncodeArgs(item) ==
            Unfinished(name, key, announced, width, chunk + [item])
  {
    var head := Header('*', 2 + announced * width);
    hide Header;
    FlatConcat(chunk, [item]);
    assert Flat([item]) == item + [] == item;
    var args := [name, key] + Flat(chunk);
    assert [name, key] + Flat(chunk + [item]) == args + item;
    EncodeArgsConcat(args, item);
    hide EncodeArgs;
    Assoc(head, EncodeArgs(args), EncodeArgs(item));
  }

  lemma UnfinishedDone(eng: Engine, kind: Kind, key: Bytes, chunk: seq<Argv>)
    requires IsAggregate(kind) && chunk != []
    requires forall i :: 0 <= i < |chunk| ==> ItemOk(eng, kind, chunk[i])
    ensures Unfinished(CommandName(kind), key, |chunk|, Width(kind), chunk) ==
            Encode([CommandName(kind), key] + Flat(chunk))
  {
    hide Header;
    hide EncodeArgs;
    hide Flat;
    hide CommandName;
    hide ItemOk;
    hide Width;
    FlatLength(eng, kind, chunk);
    TimesWidth(kind, |chunk|);
    assert |[CommandName(kind), key] + Flat(chunk)| == 2 + |chunk| * Width(kind);
  }

  lemma TimesWidth(kind: Kind, k: nat)
    ensures k * Width(kind) == if Width(kind) == 2 then 2 * k else k
  {
  }

  lemma UnfinishedStarts(name: Bytes, key: Bytes, announced: nat, width: nat, chunk: seq<Argv>)
    requires chunk == []
    ensures Unfinished(name, key, announced, width, chunk) == ""
    ensures Opened(name, key, announced, width, chunk) == Header('*', 2 + announced * width) + EncodeArgs([name, key])
  {
    assert [name, key] + Flat(chunk) == [name, key];
  }

  lemma UnfinishedOpened(name: Bytes, key: Bytes, announced: nat, width: nat, chunk: seq<Argv>)
    requires chunk != []
    ensures Unfinished(name, key, announced, width, chunk) == Opened(name, key, announced, width, chunk)
  {
  }

  lemma FinishChunk(eng: Engine, kind: Kind, key: Bytes, elements: seq<Argv>, start: nat, end: nat, n: nat)
    requires n >= 1 && IsAggregate(kind) && FullChunks(start, n) && start < end <= |elements| && end - start <= n
    requires forall i :: 0 <= i < |elements| ==> ItemOk(eng, kind, elements[i])
    ensures EncodeAll(Batches(CommandName(kind), key, elements[..start], n)) +
            Unfinished(CommandName(kind), key, end - start, Width(kind), elements[start..end]) ==
            EncodeAll(Batches(CommandName(kind), key, elements[..end], n))
  {
    hide Unfinished;
    hide Encode;
    hide Flat;
    hide CommandName;
    hide FullChunks;
    hide EncodeAll;
    hide Batches;
    var chunk := elements[start..end];
    var name := CommandName(kind);
    forall i | 0 <= i < |chunk| ensures ItemOk(eng, kind, chunk[i]) { assert chunk[i] == elements[start + i]; }
    UnfinishedDone(eng, kind, key, chunk);
    BatchesSnoc(name, key, elements[..start], chunk, n);
    assert elements[..start] + chunk == elements[..end];
    var cmd := [name, key] + Flat(chunk);
    EncodeAllConcat(Batches(name, key, elements[..start], n), [cmd]);
    EncodeAllOne(cmd);
  }

  function Announced(elements: seq<Argv>, start: nat, n: nat): nat
    requires start <= |elements|
  {
    if |elements| - start > n then n else |elements| - start
  }

  /** text holds the full commands of the first `start` elements and, when i is beyond start,
      a command that announced all its items but has only those up to i so far. */
  ghost predicate Written(kind: Kind, key: Bytes, elements: seq<Argv>, n: nat, start: nat, i: nat, text: Bytes)
    requires n >= 1 && IsAggregate(kind)
  {
    && start <= i <= |elements| && i - start < n && FullChunks(start, n)
    && text == EncodeAll(Batches(CommandName(kind), key, elements[..start], n)) +
               Unfinished(CommandName(kind), key, Announced(elements, start, n), Width(kind), elements[start..i])
  }

  function HeadText(kind: Kind, key: Bytes, cmdItems: nat): Bytes
    requires IsAggregate(kind)
  {
    Header('*', 2 + cmdItems * Width(kind)) + EncodeArgs([CommandName(kind), key])
  }

  lemma WriteHead(kind: Kind, key: Bytes, elements: seq<Argv>, n: nat, i: nat, text: Bytes)
    requires n >= 1 && IsAggregate(kind) && Written(kind, key, elements, n, i, i, text)
    ensures text + HeadText(kind, key, Announced(elements, i, n)) ==
            EncodeAll(Batches(CommandName(kind), key, elements[..i], n)) +
            Opened(CommandName(kind), key, Announced(elements, i, n), Width(kind), elements[i..i])
  {
    hide Batches;
    hide Unfinished;
    hide Opened;
    hide CommandName;
    hide EncodeAll;
    hide EncodeArgs;
    hide Header;
    UnfinishedStarts(CommandName(kind), key, Announced(elements, i, n), Width(kind), elements[i..i]);
  }

  lemma WriteItem(eng: Engine, kind: Kind, key: Bytes, elements: seq<Argv>, n: nat, start: nat, i: nat, text: Bytes)
    requires n >= 1 && IsAggregate(kind)
    requires start <= i < |elements| && i - start < n && FullChunks(start, n)
    requires forall k :: 0 <= k < |elements| ==> ItemOk(eng, kind, elements[k])
    requires text == EncodeAll(Batches(CommandName(kind), key, elements[..start], n)) +
                     Opened(CommandName(kind), key, Announced(elements, start, n), Width(kind), elements[start..i])
    ensures Written(kind, key, elements, n, if i + 1 - start == n then i + 1 else start, i + 1,
                    text + EncodeArgs(elements[i]))
  {
    hide Unfinished;
    hide Opened;
    hide Batches;
    hide EncodeAll;
    hide EncodeArgs;
    hide ItemOk;
    var name, width, announced := CommandName(kind), Width(kind), Announced(elements, start, n);
    var chunk := elements[start..i];
    var fin := EncodeAll(Batches(name, key, elements[..start], n));
    UnfinishedGrows(name, key, announced, width, chunk, elements[i]);
    assert chunk + [elements[i]] == elements[start..i + 1];
    Assoc(fin, Opened(name, key, announced, width, chunk), EncodeArgs(elements[i]));
    if i + 1 - start == n {
      FinishChunk(eng, kind, key, elements, start, i + 1, n);
      OneMoreChunk(start, n);
      assert elements[i + 1..i + 1] == [];
      UnfinishedStarts(name, key, Announced(elements, i + 1, n), width, elements[i + 1..i + 1]);
    }
  }

  lemma WrittenNothing(kind: Kind, key: Bytes, elements: seq<Argv>, n: nat)
    requires n >= 1 && IsAggregate(kind)
    ensures Written(kind, key, elements, n, 0, 0, "")
  {
  }

  /** One turn of the loop: the header first when a command starts, then the item. */
  lemma WriteTurn(eng: Engine, kind: Kind, key: Bytes, elements: seq<Argv>, n: nat, start: nat, i: nat, text: Bytes)
    requires n >= 1 && IsAggregate(kind) && i < |elements| && Written(kind, key, elements, n, start, i, text)
    requires forall k :: 0 <= k < |elements| ==> ItemOk(eng, kind, elements[k])
    ensures i - start < n
    ensures var headed := if i == start then text + HeadText(kind, key, Announced(elements, i, n)) else text;
            Written(kind, key, elements, n, if i + 1 - start == n then i + 1 else start, i + 1,
                    headed + EncodeArgs(elements[i]))
  {
    hide HeadText;
    hide EncodeArgs;
    hide Batches;
    hide EncodeAll;
    if i == start {
      WriteHead(kind, key, elements, n, i, text);
      hide Opened;
      WriteItem(eng, kind, key, elements, n, start, i, text + HeadText(kind, key, Announced(elements, i, n)));
    } else {
      UnfinishedOpened(CommandName(kind), key, Announced(elements, start, n), Width(kind), elements[start..i]);
      hide Opened;
      WriteItem(eng, kind, key, elements, n, start, i, text);
    }
  }

  lemma WrittenAll(eng: Engine, kind: Kind, key: Bytes, elements: seq<Argv>, n: nat, start: nat, text: Bytes)
    requires n >= 1 && IsAggregate(kind) && Written(kind, key, elements, n, start, |elements|, text)
    requires forall k :: 0 <= k < |elements| ==> ItemOk(eng, kind, elements[k])
    ensures text == EncodeAll(Batches(CommandName(kind), key, elements, n))
  {
    hide Batches;
    hide EncodeAll;
    hide CommandName;
    hide ItemOk;
    hide FullChunks;
    hide EncodeArgs;
    hide Flat;
    hide Header;
    assert elements[..|elements|] == elements;
    if start < |elements| {
      hide Unfinished;
      FinishChunk(eng, kind, key, elements, start, |elements|, n);
    }
  }

  /** rewriteListObject, rewriteSetObject, rewriteSortedSetObject and rewriteHashObject: the
      same loop with one or two bulk strings per element. The header of a command is written
      before its items, from the number of items left, and is always right. */
  method RewriteAggregate(eng: Engine, out: Bytes, kind: Kind, key: Bytes, elements: seq<Argv>, n: nat)
    returns (res: Bytes)
    requires n >= 1 && IsAggregate(kind)
    requires forall i :: 0 <= i < |elements| ==> ItemOk(eng, kind, elements[i])
    ensures res == out + EncodeAll(Batches(CommandName(kind), key, elements, n))
  {
    hide ItemOk;
    hide EncodeArgs;
    hide EncodeAll;
    hide Written;
    hide Batches;
    hide Print;
    var count, items, text := 0, |elements|, "";
    var i := 0;
    ghost var start: nat := 0;
    WrittenNothing(kind, key, elements, n);
    while i < |elements|
      invariant 0 <= i <= |elements| && items == |elements| - i && start <= i && count == i - start
      invariant Written(kind, key, elements, n, start, i, text)
    {
      WriteTurn(eng, kind, key, elements, n, start, i, text);
      if count == 0 {
        var cmdItems := if items > n then n else items;
        text := text + (Header('*', 2 + cmdItems * Width(kind)) + EncodeArgs([CommandName(kind), key]));
      }
      text := text + EncodeArgs(elements[i]);
      count := count + 1;
      if count == n {
        count := 0;
        start := i + 1;
      }
      items := items - 1;
      i := i + 1;
    }
    WrittenAll(eng, kind, key, elements, n, start, text);
    res := out + text;
  }

  /** One key of rewriteAppendOnlyFileRio: its value, then its expire. */
  method RewriteEntry(eng: Engine, out: Bytes, e: DumpEntry, n: nat) returns (res: Bytes)
    requires n >= 1 && EntryOk(eng, e)
    ensures res == out + EncodeAll(EntryCommands(eng, e, n))
  {
    var text: Bytes;
    match e.value {
      case Plain(v) =>
        text := CatGenericCommand("", ["SET", e.name, v]);
        EncodeAllOne(["SET", e.name, v]);
      case Aggregate(kind, items) =>
        text := RewriteAggregate(eng, "", kind, e.name, items, n);
    }
    assert text == EncodeAll(ValueCommands(eng, e, n));
    if e.expire != -1 {
      text := CatGenericCommand(text, Pexpireat(e.name, e.expire));
      EncodeAllConcat(ValueCommands(eng, e, n), [Pexpireat(e.name, e.expire)]);
      EncodeAllOne(Pexpireat(e.name, e.expire));
    } else {
      assert EntryCommands(eng, e, n) == ValueCommands(eng, e, n);
    }
    res := out + text;
  }

  lemma {:induction false} EntriesSnoc(eng: Engine, a: seq<DumpEntry>, e: DumpEntry, n: nat)
    requires EntriesOk(eng, a) && EntryOk(eng, e) && n >= 1
    ensures EntriesCommands(eng, a + [e], n) == EntriesCommands(eng, a, n) + EntryCommands(eng, e, n)
    decreases |a|
  {
    if a == [] {
      assert a + [e] == [e] && [e][1..] == [];
    } else {
      assert (a + [e])[1..] == a[1..] + [e];
      EntriesSnoc(eng, a[1..], e, n);
    }
  }

  method RewriteDb(eng: Engine, out: Bytes, j: nat, entries: seq<DumpEntry>, n: nat) returns (res: Bytes)
    requires n >= 1 && EntriesOk(eng, entries)
    ensures res == out + EncodeAll(DbCommands(eng, j, entries, n))
  {
    hide EntryOk;
    hide EntryCommands;
    hide Encode;
    hide EncodeArg;
    var sel := SELECT_HEAD + EncodeArg(Print(j));
    SelectText(j);
    EncodeAllOne(SelectCommand(j));
    var text := "";
    var i := 0;
    while i < |entries|
      invariant 0 <= i <= |entries|
      invariant text == EncodeAll(EntriesCommands(eng, entries[..i], n))
    {
      text := RewriteEntry(eng, text, entries[i], n);
      assert entries[..i + 1] == entries[..i] + [entries[i]];
      EntriesSnoc(eng, entries[..i], entries[i], n);
      EncodeAllConcat(EntriesCommands(eng, entries[..i], n), EntryCommands(eng, entries[i], n));
      i := i + 1;
    }
    assert entries[..i] == entries;
    EncodeAllConcat([SelectCommand(j)], EntriesCommands(eng, entries, n));
    res := out + (sel + text);
  }

  /** rewriteAppendOnlyFileRio: the whole snapshot. */
  method RewriteAppendOnlyFileRio(eng: Engine, dump: Dump, n: nat) returns (res: Bytes)
    requires DumpOk(eng, dump) && n >= 1
    ensures res == EncodeAll(RewriteCommands(eng, dump, n))
  {
    hide DbCommands;
    hide EncodeAll;
    hide EntryOk;
    res := "";
    var j := 0;
    while j < |dump|
      invariant 0 <= j <= |dump|
      invariant res + EncodeAll(RewriteFrom(eng, dump, j, n)) == EncodeAll(RewriteCommands(eng, dump, n))
    {
      if dump[j] != [] {
        EncodeAllConcat(DbCommands(eng, j, dump[j], n), RewriteFrom(eng, dump, j + 1, n));
        Assoc(res, EncodeAll(DbCommands(eng, j, dump[j], n)), EncodeAll(RewriteFrom(eng, dump, j + 1, n)));
        res := RewriteDb(eng, res, j, dump[j], n);
      }
      j := j + 1;
    }
    NoCommands();
  }

  lemma NoCommands()
    ensures EncodeAll([]) == ""
  {
  }
}
