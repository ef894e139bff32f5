/**
  Which datasets the iterators of a rewrite can walk over: those without empty aggregates, with
  canonical scores and 64 bit expires. Every such dataset has a dump, and commands keep them.
 */
module AofDump {
  import opened Decimal
  import opened Resp
  import opened Text
  import opened Store
  import opened AofRewrite

  predicate ValueOk(eng: Engine, v: Value) {
    match v
    case Str(_) => true
    case List(items) => items != []
    case Set(members) => members != {}
    case ZSet(scores) => scores != map[] && forall m :: m in scores ==> eng.score(scores[m]) == Some(scores[m])
    case Hash(fields) => fields != map[]
  }

  predicate EntryFits(eng: Engine, e: Entry) {
    ValueOk(eng, e.value) && LLONG_MIN <= e.expire <= LLONG_MAX
  }

  predicate DatasetOk(eng: Engine, ds: Dataset) {
    forall k :: k in ds ==> k.db < eng.dbnum && EntryFits(eng, ds[k])
  }

  // ----- a dump exists --------------------------------------------------------

  lemma {:induction false} DumpOfSet(eng: Engine, s: set<Bytes>) returns (items: seq<Argv>)
    ensures Built(SaddCmd, Flat(items)) == Set(s) && (items == [] <==> s == {})
    ensures forall i :: 0 <= i < |items| ==> ItemOk(eng, SaddCmd, items[i])
    decreases s
  {
    if s == {} {
      items := [];
    } else {
      var x :| x in s;
      var rest := DumpOfSet(eng, s - {x});
      items := rest + [[x]];
      FlatConcat(rest, [[x]]);
      assert Flat([[x]]) == [x] by { assert [[x]][1..] == []; }
      var r := set y | y in Flat(rest);
      assert r == s - {x};
      assert forall y :: y in Flat(rest) <==> y in r;
      assert forall y :: y in Flat(rest) + [x] <==> y in s;
    }
  }

  lemma {:induction false} DumpOfList(eng: Engine, q: seq<Bytes>) returns (items: seq<Argv>)
    ensures Built(RpushCmd, Flat(items)) == List(q) && (items == [] <==> q == [])
    ensures forall i :: 0 <= i < |items| ==> ItemOk(eng, RpushCmd, items[i])
    decreases |q|
  {
    if q == [] {
      items := [];
    } else {
      var rest := DumpOfList(eng, q[1..]);
      items := [[q[0]]] + rest;
      assert items[1..] == rest && [q[0]] + q[1..] == q;
    }
  }

  lemma {:induction false} DumpOfMap(eng: Engine, m: map<Bytes, Bytes>, scoreFirst: bool) returns (items: seq<Argv>)
    requires scoreFirst ==> forall k :: k in m ==> eng.score(m[k]) == Some(m[k])
    ensures AddPairs(map[], Flat(items), scoreFirst) == m && (items == [] <==> m == map[])
    ensures forall i :: 0 <= i < |items| ==> ItemOk(eng, if scoreFirst then ZaddCmd else HmsetCmd, items[i])
    decreases m.Keys
  {
    if m == map[] {
      items := [];
    } else {
      var k :| k in m.Keys;
      var less := m - {k};
      assert less.Keys == m.Keys - {k};
      var rest := DumpOfMap(eng, less, scoreFirst);
      var pair := if scoreFirst then [m[k], k] else [k, m[k]];
      items := rest + [pair];
      var kind := if scoreFirst then ZaddCmd else HmsetCmd;
      FlatLength(eng, kind, rest);
      FlatConcat(rest, [pair]);
      FlatOne(pair);
      AddPairsConcat(map[], Flat(rest), pair, scoreFirst);
      OnePair(less, pair, scoreFirst);
      assert less[k := m[k]] == m;
    }
  }

  lemma FlatOne(item: Argv)
    ensures Flat([item]) == item
  {
    assert [item][1..] == [];
  }

  lemma OnePair(m: map<Bytes, Bytes>, pair: Argv, scoreFirst: bool)
    requires |pair| == 2
    ensures AddPairs(m, pair, scoreFirst) == if scoreFirst then m[pair[1] := pair[0]] else m[pair[0] := pair[1]]
  {
    assert pair[2..] == [];
  }

  lemma DumpOfEntry(eng: Engine, name: Bytes, e: Entry) returns (d: DumpEntry)
    requires EntryFits(eng, e)
    ensures d.name == name && EntryOk(eng, d) && EntryOf(eng, d) == e && !IsEmpty(d)
  {
    hide ItemOk;
    hide AddPairs;
    hide Flat;
    match e.value
    case Str(text) => d := DumpEntry(name, Plain(text), e.expire);
    case List(q) =>
      var items := DumpOfList(eng, q);
      d := DumpEntry(name, Aggregate(RpushCmd, items), e.expire);
    case Set(s) =>
      var items := DumpOfSet(eng, s);
      d := DumpEntry(name, Aggregate(SaddCmd, items), e.expire);
    case ZSet(m) =>
      var items := DumpOfMap(eng, m, true);
      d := DumpEntry(name, Aggregate(ZaddCmd, items), e.expire);
    case Hash(m) =>
      var items := DumpOfMap(eng, m, false);
      d := DumpEntry(name, Aggregate(HmsetCmd, items), e.expire);
  }

  /** The entries of database j whose names are in `names`. */
  ghost predicate Lists(eng: Engine, ds: Dataset, j: nat, names: set<Bytes>, entries: seq<DumpEntry>) {
    && EntriesOk(eng, entries) && Distinct(entries)
    && (forall i :: 0 <= i < |entries| ==>
          entries[i].name in names && Key(j, entries[i].name) in ds
          && ds[Key(j, entries[i].name)] == EntryOf(eng, entries[i]) && !IsEmpty(entries[i]))
    && (forall n :: n in names ==> Visits(entries, n))
  }

  lemma {:induction false} DumpOfNames(eng: Engine, ds: Dataset, j: nat, names: set<Bytes>) returns (entries: seq<DumpEntry>)
    requires DatasetOk(eng, ds) && forall n :: n in names ==> Key(j, n) in ds
    ensures Lists(eng, ds, j, names, entries)
    decreases names
  {
    hide EntryFits;
    hide EntryOf;
    hide IsEmpty;
    hide EntryOk;
    if names == {} {
      entries := [];
    } else {
      var n :| n in names;
      var rest := DumpOfNames(eng, ds, j, names - {n});
      var d := DumpOfEntry(eng, n, ds[Key(j, n)]);
      entries := [d] + rest;
      forall m | m in names ensures Visits(entries, m) {
        if m == n {
          assert entries[0].name == m;
        } else {
          assert m in names - {n} && Visits(rest, m);
          var i :| 0 <= i < |rest| && rest[i].name == m;
          assert entries[i + 1].name == m;
        }
      }
    }
  }

  lemma {:induction false} DumpUpTo(eng: Engine, ds: Dataset, n: nat) returns (dump: Dump)
    requires DatasetOk(eng, ds)
    ensures |dump| == n
    ensures forall j :: 0 <= j < n ==> Lists(eng, ds, j, NamesIn(ds, j), dump[j])
    decreases n
  {
    hide Lists;
    if n == 0 {
      dump := [];
    } else {
      var front := DumpUpTo(eng, ds, n - 1);
      NamesInSet(ds, n - 1);
      var last := DumpOfNames(eng, ds, n - 1, NamesIn(ds, n - 1));
      dump := front + [last];
    }
  }

  ghost function NamesIn(ds: Dataset, j: nat): set<Bytes> {
    set k | k in ds && k.db == j :: k.name
  }

  lemma NamesInSet(ds: Dataset, j: nat)
    ensures forall n :: n in NamesIn(ds, j) <==> Key(j, n) in ds
  {
    forall n | Key(j, n) in ds ensures n in NamesIn(ds, j) {
      assert Key(j, n).name == n;
    }
  }

  /** Every such dataset can be dumped, and by RewriteRebuilds the dump replays to it. */
  lemma DumpExists(eng: Engine, ds: Dataset) returns (dump: Dump)
    requires DatasetOk(eng, ds) && eng.dbnum <= LLONG_MAX
    ensures DumpOk(eng, dump) && Enumerates(eng, dump, ds) && NoEmptyAggregate(dump)
  {
    hide EntryFits;
    hide EntryOf;
    hide IsEmpty;
    hide EntryOk;
    hide NamesIn;
    dump := DumpUpTo(eng, ds, eng.dbnum);
    forall j | 0 <= j < |dump| ensures Lists(eng, ds, j, NamesIn(ds, j), dump[j]) {
    }
    forall k | k in ds ensures k.db < |dump| && Visits(dump[k.db], k.name) {
      NamesInSet(ds, k.db);
      assert Key(k.db, k.name) == k;
    }
  }

  // ----- commands keep them ---------------------------------------------------

  /** What the rest of the server has to promise: canonical scores are fixed points, and the other
      commands do not leave empty aggregates behind either. */
  ghost predicate EngineKeeps(eng: Engine) {
    && (forall s: Bytes :: eng.score(s).Some? ==> eng.score(eng.score(s).value) == eng.score(s))
    && (forall ds: Dataset, db: nat, argv: Argv ::
          DatasetOk(eng, ds) && db < eng.dbnum ==> DatasetOk(eng, eng.other(ds, db, argv)))
  }

  lemma PutKeeps(eng: Engine, ds: Dataset, k: Key, e: Entry)
    requires DatasetOk(eng, ds) && k.db < eng.dbnum && EntryFits(eng, e)
    ensures DatasetOk(eng, ds[k := e])
  {
  }

  lemma {:induction false} AddPairsCanonical(eng: Engine, m: map<Bytes, Bytes>, args: Argv)
    requires EngineKeeps(eng) && Scores(eng, args).Some?
    requires forall k :: k in m ==> eng.score(m[k]) == Some(m[k])
    ensures var r := AddPairs(m, Scores(eng, args).value, true);
            forall k :: k in r ==> eng.score(r[k]) == Some(r[k])
    decreases |args|
  {
    if |args| >= 2 {
      var s := eng.score(args[0]).value;
      var q := Scores(eng, args).value;
      assert q == [s, args[1]] + Scores(eng, args[2..]).value;
      assert q[2..] == Scores(eng, args[2..]).value && q[0] == s && q[1] == args[1];
      assert eng.score(s) == Some(s);
      AddPairsCanonical(eng, m[args[1] := s], args[2..]);
      assert AddPairs(m, q, true) == AddPairs(m[args[1] := s], q[2..], true);
    } else {
      assert Scores(eng, args).value == [] && AddPairs(m, [], true) == m;
    }
  }

  lemma {:induction false} AddPairsGrows(m: map<Bytes, Bytes>, args: Argv, scoreFirst: bool)
    ensures m != map[] || |args| >= 2 ==> AddPairs(m, args, scoreFirst) != map[]
    decreases |args|
  {
    if |args| >= 2 {
      var m' := if scoreFirst then m[args[1] := args[0]] else m[args[0] := args[1]];
      assert (if scoreFirst then args[1] else args[0]) in m';
      AddPairsGrows(m', args[2..], scoreFirst);
    }
  }

  lemma {:induction false} ScoresLength(eng: Engine, args: Argv)
    requires Scores(eng, args).Some? && |args| >= 2
    ensures |Scores(eng, args).value| >= 2
  {
  }

  lemma GrownValue(eng: Engine, was: Value, kind: Kind, args: Argv, now: Value)
    requires EngineKeeps(eng) && IsAggregate(kind) && args != [] && (kind in {ZaddCmd, HmsetCmd} ==> |args| >= 2)
    requires was == Empty(kind) || ValueOk(eng, was)
    requires match kind
             case RpushCmd => was.List? && now == List(was.items + args)
             case SaddCmd => was.Set? && now == Set(was.members + (set x | x in args))
             case ZaddCmd => was.ZSet? && Scores(eng, args).Some? && now == ZSet(AddPairs(was.scores, Scores(eng, args).value, true))
             case HmsetCmd => was.Hash? && now == Hash(AddPairs(was.fields, args, false))
    ensures ValueOk(eng, now)
  {
    match kind
    case RpushCmd =>
    case SaddCmd => assert args[0] in now.members;
    case ZaddCmd =>
      AddPairsCanonical(eng, was.scores, args);
      ScoresLength(eng, args);
      AddPairsGrows(was.scores, Scores(eng, args).value, true);
    case HmsetCmd => AddPairsGrows(was.fields, args, false);
  }

  lemma GrowKeeps(eng: Engine, ds: Dataset, k: Key, kind: Kind, args: Argv)
    requires EngineKeeps(eng) && DatasetOk(eng, ds) && k.db < eng.dbnum && IsAggregate(kind)
    requires args != [] && (kind in {ZaddCmd, HmsetCmd} ==> |args| >= 2)
    ensures DatasetOk(eng, Grow(eng, ds, k, kind, args))
  {
    hide ValueOk;
    hide EngineKeeps;
    hide Scores;
    hide AddPairs;
    hide DatasetOk;
    if k in ds {
      AtKey(eng, ds, k);
    }
    var was := if k in ds then ds[k] else Entry(Empty(kind), -1);
    var r := Grow(eng, ds, k, kind, args);
    if r != ds {
      GrownValue(eng, was.value, kind, args, r[k].value);
      PutKeeps(eng, ds, k, r[k]);
      assert r == ds[k := r[k]];
    }
  }

  lemma AtKey(eng: Engine, ds: Dataset, k: Key)
    requires DatasetOk(eng, ds) && k in ds
    ensures EntryFits(eng, ds[k])
  {
  }

  lemma SetKeeps(eng: Engine, ds: Dataset, key: Key, val: Bytes, nx: bool, xx: bool, keepttl: bool,
                 expire: Option<Bytes>, unit: Unit, now: int, argv: Argv)
    requires DatasetOk(eng, ds) && key.db < eng.dbnum
    ensures DatasetOk(eng, SetGeneric(ds, key, val, nx, xx, keepttl, expire, unit, now, argv).ds)
  {
    hide Strict;
    hide InMillis;
  }

  lemma ExpireKeeps(eng: Engine, loading: bool, ds: Dataset, key: Key, param: Bytes, base: int, unit: Unit, now: int, argv: Argv)
    requires DatasetOk(eng, ds) && key.db < eng.dbnum
    ensures DatasetOk(eng, ExpireGeneric(eng, loading, ds, key, param, base, unit, now, argv).ds)
  {
    hide Strict;
    hide InMillis;
    hide ValueOk;
  }

  lemma UntimedKeeps(eng: Engine, ds: Dataset, db: nat, argv: Argv)
    requires EngineKeeps(eng) && DatasetOk(eng, ds) && argv != [] && db < eng.dbnum
    ensures DatasetOk(eng, Untimed(eng, ds, db, argv))
  {
    hide Grow;
    hide EntryFits;
    if GrowsHere(eng, argv) {
      GrowKeeps(eng, ds, Key(db, argv[1]), eng.kindOf(argv[0]), argv[2..]);
    }
  }

  /** A command leaves a dataset that can be dumped, if those outside the model do. */
  lemma ExecuteKeeps(eng: Engine, loading: bool, now: int, force: bool, ds: Dataset, db: nat, argv: Argv)
    requires EngineKeeps(eng) && DatasetOk(eng, ds) && argv != [] && db < eng.dbnum
    ensures DatasetOk(eng, Execute(eng, loading, now, force, ds, db, argv).ds)
  {
    hide ParseSet;
    hide Strict;
    hide DatasetOk;
    hide EngineKeeps;
    hide SetGeneric;
    hide ExpireGeneric;
    hide Untimed;
    forall key: Key, val: Bytes, nx: bool, xx: bool, keepttl: bool, expire: Option<Bytes>, unit: Unit | key.db < eng.dbnum
      ensures DatasetOk(eng, SetGeneric(ds, key, val, nx, xx, keepttl, expire, unit, now, argv).ds)
    {
      SetKeeps(eng, ds, key, val, nx, xx, keepttl, expire, unit, now, argv);
    }
    forall key: Key, param: Bytes, base: int, unit: Unit | key.db < eng.dbnum
      ensures DatasetOk(eng, ExpireGeneric(eng, loading, ds, key, param, base, unit, now, argv).ds)
    {
      ExpireKeeps(eng, loading, ds, key, param, base, unit, now, argv);
    }
    UntimedKeeps(eng, ds, db, argv);
  }
}
