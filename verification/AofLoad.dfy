/**
  loadAppendOnlyFile: replaying the file, and what is recovered from a file that ends too
  early.
 */
module AofLoad {
  import opened Decimal
  import opened Resp
  import opened Text
  import opened Store

  datatype LoadResult =
    | Empty                            // zero length file
    | Preamble                         // the file starts with an RDB dump
    | Loaded(ds: Dataset, size: nat)   // size is the length of the file afterwards
    | Refused                          // unexpected end of file
    | FormatError
    | Fatal

  /** Loader state when reading stops, with the two offsets kept for the truncation. */
  datatype Scanned = Scanned(l: Loader, validUpTo: nat, beforeMulti: nat, end: Read)

  /** The main loop from the remaining bytes `rest` on. */
  function ScanFile(eng: Engine, t: int, size: nat, rest: Bytes, l: Loader, validUpTo: nat, beforeMulti: nat,
                    truncatable: bool): (r: Scanned)
    requires ValidLoader(l) && |rest| <= size
    ensures ValidLoader(r.l) && !r.end.Got?
    decreases |rest|
  {
    var r := ReadCommand(rest);
    if !r.Got? then Scanned(l, validUpTo, beforeMulti, r)
    else
      ScanFile(eng, t, size, r.rest, LoadStep(eng, t, l, r.argv),
               if truncatable then size - |r.rest| else validUpTo,
               if eng.kindOf(r.argv[0]) == MultiCmd then validUpTo else beforeMulti,
               truncatable)
  }

  /** Loading at time t; truncatable is aof-load-truncated, sysOk the outcome of the truncation. */
  function Load(eng: Engine, t: int, file: Bytes, truncatable: bool, sysOk: bool): LoadResult {
    if file == "" then Empty
    else if |file| >= 5 && file[..5] == "REDIS" then Preamble
    else
      var s := ScanFile(eng, t, |file|, file, START, 0, 0, truncatable);
      match s.end
      case AtEof =>
        if s.l.queue.None? then Loaded(s.l.session.ds, |file|)
        else if truncatable && sysOk then Loaded(s.l.session.ds, s.beforeMulti)
        else Refused
      case Short => if truncatable && sysOk then Loaded(s.l.session.ds, s.validUpTo) else Refused
      case Bad => FormatError
      case Abort => Fatal
  }

  // ----- the loops ----------------------------------------------------------

  /** The argument loop: reads argc arguments one after the other. */
  method ReadArguments(s: Bytes, argc: nat) returns (r: Read)
    ensures r == ReadArgs(s, argc)
  {
    hide Line;
    hide Strtol;
    hide Prepend;
    var argv: Argv, rest := [], s;
    var j := 0;
    PrependNone(ReadArgs(s, argc));
    while j < argc
      invariant 0 <= j <= argc && |argv| == j
      invariant Prepend(argv, ReadArgs(rest, argc - j)) == ReadArgs(s, argc)
    {
      PrependFailure(argv);
      if rest == "" { return Short; }
      if rest[0] != '$' { return Bad; }
      var k := Line(rest);
      var len := Strtol(rest[1..k]);
      if len < 0 { return Abort; }
      var body := rest[k..];
      if |body| < len || |body| - len < 2 { return Short; }
      PrependOne(argv, body[..len], ReadArgs(body[len + 2..], argc - j - 1));
      argv := argv + [body[..len]];
      rest := body[len + 2..];
      j := j + 1;
    }
    r := Got(argv, rest);
    PrependToNone(argv, rest);
  }

  lemma PrependNone(r: Read)
    ensures Prepend([], r) == r
  {
    if r.Got? { assert [] + r.argv == r.argv; }
  }

  lemma PrependToNone(done: Argv, rest: Bytes)
    ensures Prepend(done, Got([], rest)) == Got(done, rest)
  {
    assert done + [] == done;
  }

  lemma PrependFailure(done: Argv)
    ensures forall r: Read :: !r.Got? ==> Prepend(done, r) == r
  {
  }

  function Prepend(done: Argv, r: Read): Read {
    if r.Got? then Got(done + r.argv, r.rest) else r
  }

  lemma PrependOne(done: Argv, a: Bytes, r: Read)
    ensures Prepend(done, if r.Got? then Got([a] + r.argv, r.rest) else r) == Prepend(done + [a], r)
  {
    if r.Got? {
      assert done + ([a] + r.argv) == done + [a] + r.argv;
    }
  }

  /** loadAppendOnlyFile */
  method LoadAppendOnlyFile(eng: Engine, t: int, file: Bytes, truncatable: bool, sysOk: bool)
    returns (res: LoadResult)
    ensures res == Load(eng, t, file, truncatable, sysOk)
  {
    hide LoadStep;
    hide ReadArgs;
    hide Strtol;
    hide Line;
    if file == "" { return Empty; }
    if |file| >= 5 && file[..5] == "REDIS" { return Preamble; }
    var l, validUpTo: nat, beforeMulti: nat := START, 0, 0;
    var rest := file;
    ghost var want := ScanFile(eng, t, |file|, file, START, 0, 0, truncatable);
    while true
      invariant ValidLoader(l) && |rest| <= |file|
      invariant ScanFile(eng, t, |file|, rest, l, validUpTo, beforeMulti, truncatable) == want
      decreases |rest|
    {
      if rest == "" { break; }
      if rest[0] != '*' { return FormatError; }
      if |rest| == 1 { return if truncatable && sysOk then Loaded(l.session.ds, validUpTo) else Refused; }
      if rest[1] == '\0' { return Fatal; }
      var k := Line(rest);
      var argc := Strtol(rest[1..k]);
      if argc < 1 { return FormatError; }
      var r := ReadArguments(rest[k..], argc);
      match r {
        case Got(argv, tail) =>
          if eng.kindOf(argv[0]) == MultiCmd { beforeMulti := validUpTo; }
          l := LoadStep(eng, t, l, argv);
          rest := tail;
          if truncatable { validUpTo := |file| - |rest|; }
        case Short =>
          return if truncatable && sysOk then Loaded(l.session.ds, validUpTo) else Refused;
        case Bad => return FormatError;
        case Abort => return Fatal;
      }
    }
    if l.queue.Some? {
      validUpTo := beforeMulti;
      return if truncatable && sysOk then Loaded(l.session.ds, validUpTo) else Refused;
    }
    return Loaded(l.session.ds, |file|);
  }

  // ----- loading a prefix of a well-formed file -----------------------------

  /** Offset just before the last MULTI, 0 when there is none. */
  function BeforeMulti(eng: Engine, cmds: seq<Argv>): nat
    requires Commands(cmds)
  {
    if cmds == [] then 0
    else
      var n := |cmds| - 1;
      if eng.kindOf(cmds[n][0]) == MultiCmd then |EncodeAll(cmds[..n])| else BeforeMulti(eng, cmds[..n])
  }

  lemma BeforeMultiSnoc(eng: Engine, cmds: seq<Argv>, c: Argv)
    requires Commands(cmds) && c != []
    ensures BeforeMulti(eng, cmds + [c]) ==
            if eng.kindOf(c[0]) == MultiCmd then |EncodeAll(cmds)| else BeforeMulti(eng, cmds)
  {
    assert (cmds + [c])[..|cmds|] == cmds;
  }

  /** Number of commands that are complete in the first k bytes. */
  function Complete(cmds: seq<Argv>, k: nat): (m: nat)
    ensures m <= |cmds|
  {
    if cmds == [] || |Encode(cmds[0])| > k then 0 else 1 + Complete(cmds[1..], k - |Encode(cmds[0])|)
  }

  /** The complete commands lie in the prefix, and one more does not. */
  lemma {:induction false} CompleteIsPrefix(cmds: seq<Argv>, p: Bytes)
    requires p <= EncodeAll(cmds)
    ensures var m := Complete(cmds, |p|);
            EncodeAll(cmds[..m]) <= p && (m < |cmds| ==> |EncodeAll(cmds[..m + 1])| > |p|)
    decreases |cmds|
  {
    hide Encode;
    var m := Complete(cmds, |p|);
    if cmds == [] || |Encode(cmds[0])| > |p| {
      assert cmds[..0] == [];
      if cmds != [] {
        assert cmds[..1] == [cmds[0]];
        EncodeAllOne(cmds[0]);
      }
    } else {
      var c, rest := cmds[0], cmds[1..];
      var q := p[|Encode(c)|..];
      assert p == Encode(c) + q by { assert p[..|Encode(c)|] == EncodeAll(cmds)[..|Encode(c)|] == Encode(c); }
      assert q <= EncodeAll(rest) by { assert EncodeAll(cmds)[|Encode(c)|..] == EncodeAll(rest); }
      CompleteIsPrefix(rest, q);
      assert cmds[..m][1..] == rest[..m - 1];
      if m < |cmds| {
        assert cmds[..m + 1][1..] == rest[..m];
      }
    }
  }

  lemma LoadAllSnoc(eng: Engine, t: int, l: Loader, cmds: seq<Argv>, c: Argv)
    requires Commands(cmds) && c != [] && ValidLoader(l)
    ensures LoadAll(eng, t, l, cmds + [c]) == LoadStep(eng, t, LoadAll(eng, t, l, cmds), c)
  {
    hide LoadStep;
    LoadAllConcat(eng, t, l, cmds, [c]);
    assert [c][1..] == [];
  }

  lemma EncodeAllSnoc(cmds: seq<Argv>, c: Argv)
    ensures EncodeAll(cmds + [c]) == EncodeAll(cmds) + Encode(c)
  {
    EncodeAllConcat(cmds, [c]);
    EncodeAllOne(c);
  }

  /** The scan after the commands `done`, when the bytes left are a prefix of those of `todo`. */
  ghost predicate ScansTo(eng: Engine, t: int, done: seq<Argv>, todo: seq<Argv>, q: Bytes, size: nat)
    requires Commands(done) && Commands(todo) && |q| <= size
  {
    var m := Complete(todo, |q|);
    var all := done + todo[..m];
    ScanFile(eng, t, size, q, LoadAll(eng, t, START, done), |EncodeAll(done)|, BeforeMulti(eng, done), true) ==
    Scanned(LoadAll(eng, t, START, all), |EncodeAll(all)|, BeforeMulti(eng, all),
            if q == EncodeAll(todo[..m]) then AtEof else Short)
  }

  lemma ScanStops(eng: Engine, t: int, done: seq<Argv>, todo: seq<Argv>, q: Bytes, size: nat)
    requires Commands(done) && Commands(todo) && |q| <= size
    requires q <= EncodeAll(todo) && Complete(todo, |q|) == 0
    ensures ScansTo(eng, t, done, todo, q, size)
  {
    hide LoadStep;
    hide Encode;
    hide ReadCommand;
    assert done + todo[..0] == done && EncodeAll([]) == "";
    if q != "" {
      CutWithin(Encode(todo[0]), EncodeAll(todo[1..]), q);
      ReadCut(todo[0], q);
    } else {
      ReadAtEof();
    }
  }

  lemma ReadAtEof()
    ensures ReadCommand("") == AtEof
  {
  }

  /** The scan reads one complete command and goes on. */
  lemma ScanOne(eng: Engine, t: int, done: seq<Argv>, c: Argv, q: Bytes, size: nat)
    requires Commands(done) && c != [] && size == |EncodeAll(done)| + |Encode(c)| + |q|
    ensures ScanFile(eng, t, size, Encode(c) + q, LoadAll(eng, t, START, done), |EncodeAll(done)|,
                     BeforeMulti(eng, done), true) ==
            ScanFile(eng, t, size, q, LoadAll(eng, t, START, done + [c]), |EncodeAll(done + [c])|,
                     BeforeMulti(eng, done + [c]), true)
  {
    hide LoadStep;
    hide Encode;
    hide ReadCommand;
    hide LoadAll;
    hide EncodeAll;
    hide BeforeMulti;
    ReadComplete(c, q);
    LoadAllSnoc(eng, t, START, done, c);
    BeforeMultiSnoc(eng, done, c);
    EncodeAllSnoc(done, c);
  }

  lemma {:induction false} ScanPrefix(eng: Engine, t: int, done: seq<Argv>, todo: seq<Argv>, q: Bytes)
    requires Commands(done) && Commands(todo) && q <= EncodeAll(todo)
    ensures ScansTo(eng, t, done, todo, q, |EncodeAll(done)| + |q|)
    decreases |todo|
  {
    hide Encode;
    hide LoadStep;
    hide LoadAll;
    hide ScanFile;
    hide BeforeMulti;
    var m := Complete(todo, |q|);
    var size := |EncodeAll(done)| + |q|;
    if m == 0 {
      ScanStops(eng, t, done, todo, q, size);
    } else {
      var e := |Encode(todo[0])|;
      CutBehind(Encode(todo[0]), EncodeAll(todo[1..]), q);
      EncodeAllSnoc(done, todo[0]);
      ScanPrefix(eng, t, done + [todo[0]], todo[1..], q[e..]);
      ScanOne(eng, t, done, todo[0], q[e..], size);
      assert todo[..m] == [todo[0]] + todo[1..][..m - 1];
      assert done + [todo[0]] + todo[1..][..m - 1] == done + todo[..m];
      EncodeAllConcat([todo[0]], todo[1..][..m - 1]);
      EncodeAllOne(todo[0]);
      SameTail(Encode(todo[0]), q[e..], EncodeAll(todo[1..][..m - 1]));
    }
  }

  lemma SameTail(e: Bytes, a: Bytes, b: Bytes)
    ensures e + a == e + b <==> a == b
  {
    assert (e + a)[|e|..] == a && (e + b)[|e|..] == b;
  }

  /** The recovered state for a prefix p of the bytes of cmds. */
  function Recovered(eng: Engine, t: int, cmds: seq<Argv>, p: Bytes): Loader
    requires Commands(cmds)
  {
    LoadAll(eng, t, START, cmds[..Complete(cmds, |p|)])
  }

  /** p ends inside a command. */
  predicate Torn(cmds: seq<Argv>, p: Bytes) {
    p != EncodeAll(cmds[..Complete(cmds, |p|)])
  }

  /** Where the file is cut. */
  function CutAt(eng: Engine, t: int, cmds: seq<Argv>, p: Bytes): nat
    requires Commands(cmds)
  {
    var whole := cmds[..Complete(cmds, |p|)];
    if !Torn(cmds, p) && Recovered(eng, t, cmds, p).queue.Some? then BeforeMulti(eng, whole)
    else |EncodeAll(whole)|
  }

  lemma StartsWithStar(cmds: seq<Argv>, p: Bytes)
    requires p <= EncodeAll(cmds) && p != ""
    ensures p[0] == '*'
  {
    assert Encode(cmds[0])[0] == '*';
    assert EncodeAll(cmds)[0] == Encode(cmds[0])[0];
    assert p[0] == EncodeAll(cmds)[0];
  }

  /** With aof-load-truncated, every non-empty byte prefix of a well-formed file loads: the
      complete commands run, those of an open transaction stay queued, and the file is cut
      behind the last complete command or, between two commands of an open transaction,
      before its MULTI. No prefix is a format error. */
  lemma LoadPrefix(eng: Engine, t: int, cmds: seq<Argv>, p: Bytes)
    requires Commands(cmds) && p <= EncodeAll(cmds) && p != ""
    ensures Load(eng, t, p, true, true) ==
            Loaded(Recovered(eng, t, cmds, p).session.ds, CutAt(eng, t, cmds, p))
  {
    hide ScanFile;
    hide LoadStep;
    hide LoadAll;
    hide BeforeMulti;
    hide Encode;
    StartsWithStar(cmds, p);
    assert |p| >= 5 ==> p[..5][0] == '*';
    NothingDone(eng, t);
    ScanPrefix(eng, t, [], cmds, p);
    var m := Complete(cmds, |p|);
    assert [] + cmds[..m] == cmds[..m];
  }

  /** What was read does not depend on aof-load-truncated. */
  lemma {:induction false} SameScan(eng: Engine, t: int, size: nat, rest: Bytes, l: Loader, v: nat, v': nat, b: nat, b': nat)
    requires ValidLoader(l) && |rest| <= size
    ensures var r, r' := ScanFile(eng, t, size, rest, l, v, b, true), ScanFile(eng, t, size, rest, l, v', b', false);
            r.l == r'.l && r.end == r'.end
    decreases |rest|
  {
    hide LoadStep;
    hide ReadCommand;
    var r := ReadCommand(rest);
    if r.Got? {
      var m := eng.kindOf(r.argv[0]) == MultiCmd;
      SameScan(eng, t, size, r.rest, LoadStep(eng, t, l, r.argv), size - |r.rest|, v',
               if m then v else b, if m then v' else b');
    }
  }

  /** Without aof-load-truncated, or when the truncation fails, a prefix is refused exactly when it ends
      inside a command or inside a transaction; any other loads as with it. */
  lemma LoadPrefixStrict(eng: Engine, t: int, cmds: seq<Argv>, p: Bytes, truncatable: bool, sysOk: bool)
    requires Commands(cmds) && p <= EncodeAll(cmds) && p != ""
    ensures Load(eng, t, p, truncatable, sysOk) ==
            if (truncatable && sysOk) || (!Torn(cmds, p) && Recovered(eng, t, cmds, p).queue.None?)
            then Loaded(Recovered(eng, t, cmds, p).session.ds, CutAt(eng, t, cmds, p)) else Refused
  {
    hide ScanFile;
    hide LoadStep;
    hide LoadAll;
    hide BeforeMulti;
    hide Encode;
    StartsWithStar(cmds, p);
    assert |p| >= 5 ==> p[..5][0] == '*';
    NothingDone(eng, t);
    ScanPrefix(eng, t, [], cmds, p);
    SameScan(eng, t, |p|, p, START, 0, 0, 0, 0);
    var m := Complete(cmds, |p|);
    assert [] + cmds[..m] == cmds[..m];
  }

  lemma {:induction false} ScanEnd(eng: Engine, t: int, size: nat, cmds: seq<Argv>, tail: Bytes, l: Loader, v: nat, b: nat, tr: bool)
    requires ValidLoader(l) && Commands(cmds) && |EncodeAll(cmds) + tail| <= size && !ReadCommand(tail).Got?
    ensures ScanFile(eng, t, size, EncodeAll(cmds) + tail, l, v, b, tr).end == ReadCommand(tail)
    decreases |cmds|
  {
    hide LoadStep;
    hide ReadCommand;
    hide Encode;
    if cmds == [] {
      assert EncodeAll(cmds) + tail == tail;
    } else {
      var rest := EncodeAll(cmds[1..]) + tail;
      Assoc(Encode(cmds[0]), EncodeAll(cmds[1..]), tail);
      ReadComplete(cmds[0], rest);
      ScanEnd(eng, t, size, cmds[1..], tail, LoadStep(eng, t, l, cmds[0]),
              if tr then size - |rest| else v, if eng.kindOf(cmds[0][0]) == MultiCmd then v else b, tr);
    }
  }

  /** Bytes behind complete commands that are badly formed make the whole file a format error, which no
      option repairs. */
  lemma BadTail(eng: Engine, t: int, cmds: seq<Argv>, tail: Bytes, truncatable: bool, sysOk: bool)
    requires Commands(cmds) && ReadCommand(tail) == Bad
    requires !("REDIS" <= EncodeAll(cmds) + tail)
    ensures Load(eng, t, EncodeAll(cmds) + tail, truncatable, sysOk) == FormatError
  {
    hide ScanFile;
    hide ReadCommand;
    hide EncodeAll;
    var file := EncodeAll(cmds) + tail;
    ReadAtEof();
    ScanEnd(eng, t, |file|, cmds, tail, START, 0, 0, truncatable);
  }

  /** In particular a byte other than the star or the dollar that is due, after any commands and any
      arguments. */
  lemma WrongMark(eng: Engine, t: int, cmds: seq<Argv>, args: Argv, n: nat, junk: Bytes, truncatable: bool, sysOk: bool)
    requires Commands(cmds) && junk != "" && !("REDIS" <= EncodeAll(cmds) + junk)
    ensures junk[0] != '*' ==> Load(eng, t, EncodeAll(cmds) + junk, truncatable, sysOk) == FormatError
    ensures |args| < n && junk[0] != '$' ==>
              Load(eng, t, EncodeAll(cmds) + (Header('*', n) + (EncodeArgs(args) + junk)), truncatable, sysOk) == FormatError
  {
    hide Load;
    hide ReadCommand;
    hide EncodeArgs;
    ReadBad(args, n, junk);
    if junk[0] != '*' { BadTail(eng, t, cmds, junk, truncatable, sysOk); }
    if |args| < n && junk[0] != '$' {
      var tail := Header('*', n) + (EncodeArgs(args) + junk);
      FirstByteStar(cmds, tail);
      BadTail(eng, t, cmds, tail, truncatable, sysOk);
    }
  }

  lemma FirstByteStar(cmds: seq<Argv>, tail: Bytes)
    requires tail != "" && tail[0] == '*'
    ensures !("REDIS" <= EncodeAll(cmds) + tail)
  {
    var file := EncodeAll(cmds) + tail;
    assert file[0] == '*' by {
      if cmds != [] && EncodeAll(cmds) != "" { StartsWithStar(cmds, EncodeAll(cmds)); }
    }
    assert "REDIS"[0] == 'R';
  }

  lemma NothingDone(eng: Engine, t: int)
    ensures LoadAll(eng, t, START, []) == START && EncodeAll([]) == "" && BeforeMulti(eng, []) == 0
  {
  }

  lemma {:induction false} CompleteAll(cmds: seq<Argv>)
    ensures Complete(cmds, |EncodeAll(cmds)|) == |cmds|
  {
    if cmds == [] {
    } else {
      CompleteAll(cmds[1..]);
    }
  }

  /** A whole well-formed file replays to exactly what its commands do, and is not cut, unless
      it ends inside a transaction. */
  lemma LoadWhole(eng: Engine, t: int, cmds: seq<Argv>)
    requires Commands(cmds) && cmds != []
    ensures var l := LoadAll(eng, t, START, cmds);
            Load(eng, t, EncodeAll(cmds), true, true) ==
            Loaded(l.session.ds, if l.queue.None? then |EncodeAll(cmds)| else BeforeMulti(eng, cmds))
  {
    hide Load;
    hide LoadStep;
    hide LoadAll;
    hide BeforeMulti;
    var p := EncodeAll(cmds);
    CompleteAll(cmds);
    assert cmds[..|cmds|] == cmds;
    LoadPrefix(eng, t, cmds, p);
  }

  // ----- is the recovered file good to go on with? --------------------------

  /** Is a transaction open after cmds? */
  predicate Open(eng: Engine, cmds: seq<Argv>)
    requires Commands(cmds)
  {
    && cmds != []
    && var n := |cmds| - 1;
       eng.kindOf(cmds[n][0]) == MultiCmd ||
       (eng.kindOf(cmds[n][0]) != ExecCmd && Open(eng, cmds[..n]))
  }

  /** No MULTI inside a transaction, as the server writes them. */
  predicate Unnested(eng: Engine, cmds: seq<Argv>)
    requires Commands(cmds)
  {
    forall i :: 0 <= i < |cmds| && eng.kindOf(cmds[i][0]) == MultiCmd ==> !Open(eng, cmds[..i])
  }

  lemma {:induction false} QueueIsOpen(eng: Engine, t: int, cmds: seq<Argv>)
    requires Commands(cmds)
    ensures LoadAll(eng, t, START, cmds).queue.Some? <==> Open(eng, cmds)
  {
    hide RunOne;
    if cmds == [] {
    } else {
      var n := |cmds| - 1;
      assert cmds == cmds[..n] + [cmds[n]];
      LoadAllSnoc(eng, t, START, cmds[..n], cmds[n]);
      QueueIsOpen(eng, t, cmds[..n]);
    }
  }

  /** The commands before the last MULTI. */
  function UpToMulti(eng: Engine, cmds: seq<Argv>): (k: nat)
    requires Commands(cmds)
    ensures k <= |cmds|
  {
    if cmds == [] then 0
    else
      var n := |cmds| - 1;
      if eng.kindOf(cmds[n][0]) == MultiCmd then n else UpToMulti(eng, cmds[..n])
  }

  /** The cut before the MULTI leaves exactly the commands before the transaction, and running
      only those gives the same dataset. */
  lemma {:induction false} CutBeforeTransaction(eng: Engine, t: int, cmds: seq<Argv>)
    requires Commands(cmds) && Unnested(eng, cmds) && Open(eng, cmds)
    ensures var k := UpToMulti(eng, cmds);
            && BeforeMulti(eng, cmds) == |EncodeAll(cmds[..k])|
            && LoadAll(eng, t, START, cmds[..k]) == Loader(LoadAll(eng, t, START, cmds).session, None)
    decreases |cmds|
  {
    hide RunOne;
    hide EncodeAll;
    var n := |cmds| - 1;
    var before := cmds[..n];
    assert cmds == before + [cmds[n]];
    LoadAllSnoc(eng, t, START, before, cmds[n]);
    QueueIsOpen(eng, t, before);
    if eng.kindOf(cmds[n][0]) != MultiCmd {
      assert Unnested(eng, before) by {
        forall i | 0 <= i < |before| && eng.kindOf(before[i][0]) == MultiCmd ensures !Open(eng, before[..i]) {
          assert before[..i] == cmds[..i];
        }
      }
      CutBeforeTransaction(eng, t, before);
      assert before[..UpToMulti(eng, before)] == cmds[..UpToMulti(eng, cmds)];
    }
  }

  /** After recovery the file that is left replays to the recovered dataset with no transaction
      open exactly when the old file did not end inside a command of an open transaction. */
  lemma RecoveredFileIsClean(eng: Engine, t: int, cmds: seq<Argv>, p: Bytes)
    requires Commands(cmds) && Unnested(eng, cmds) && p <= EncodeAll(cmds) && p != ""
    ensures CutAt(eng, t, cmds, p) <= |p|
    ensures var r := Recovered(eng, t, cmds, p);
            (exists kept: seq<Argv> :: Commands(kept)
               && EncodeAll(kept) == p[..CutAt(eng, t, cmds, p)]
               && LoadAll(eng, t, START, kept) == Loader(r.session, None))
            <==> !(Torn(cmds, p) && r.queue.Some?)
  {
    hide EncodeAll;
    hide LoadAll;
    var m := Complete(cmds, |p|);
    var whole := cmds[..m];
    CompleteIsPrefix(cmds, p);
    QueueIsOpen(eng, t, whole);
    UnnestedPrefix(eng, cmds, m);
    var cut := CutAt(eng, t, cmds, p);
    if !Torn(cmds, p) && Open(eng, whole) {
      CutBeforeTransaction(eng, t, whole);
      var kept := whole[..UpToMulti(eng, whole)];
      EncodePrefix(whole, UpToMulti(eng, whole));
      assert Commands(kept) && EncodeAll(kept) == p[..cut];
    } else {
      assert Commands(whole) && EncodeAll(whole) == p[..cut];
      forall kept: seq<Argv> | Commands(kept) && EncodeAll(kept) == p[..cut] ensures kept == whole {
        EncodeAllInjective(kept, whole);
      }
    }
  }

  lemma UnnestedPrefix(eng: Engine, cmds: seq<Argv>, m: nat)
    requires Commands(cmds) && Unnested(eng, cmds) && m <= |cmds|
    ensures Commands(cmds[..m]) && Unnested(eng, cmds[..m])
  {
    forall i | 0 <= i < m && eng.kindOf(cmds[..m][i][0]) == MultiCmd ensures !Open(eng, cmds[..m][..i]) {
      assert cmds[..m][..i] == cmds[..i];
    }
  }

  lemma EncodePrefix(cmds: seq<Argv>, k: nat)
    requires k <= |cmds|
    ensures |EncodeAll(cmds[..k])| <= |EncodeAll(cmds)|
    ensures EncodeAll(cmds[..k]) == EncodeAll(cmds)[..|EncodeAll(cmds[..k])|]
  {
    EncodeAllConcat(cmds[..k], cmds[k..]);
    assert cmds[..k] + cmds[k..] == cmds;
  }

  /** Once the loader sits in an open transaction, commands without an EXEC only pile up. */
  lemma {:induction false} QueueSwallows(eng: Engine, t: int, l: Loader, later: seq<Argv>)
    requires Commands(later) && ValidLoader(l) && l.queue.Some?
    requires forall i :: 0 <= i < |later| ==> eng.kindOf(later[i][0]) != ExecCmd
    ensures LoadAll(eng, t, l, later).session == l.session
    ensures LoadAll(eng, t, l, later).queue.Some?
    decreases |later|
  {
    if later == [] {
    } else {
      QueueSwallows(eng, t, LoadStep(eng, t, l, later[0]), later[1..]);
    }
  }

  /** A tear inside a transaction, and no EXEC appended afterwards: the file was cut inside that
      transaction, so all commands appended since are lost at the next start, which loads the same
      dataset and cuts all of them away. */
  lemma TornTransactionSwallowsWrites(eng: Engine, t: int, t': int, cmds: seq<Argv>, p: Bytes, later: seq<Argv>)
    requires Commands(cmds) && p <= EncodeAll(cmds) && p != "" && Commands(later)
    requires Torn(cmds, p) && Recovered(eng, t, cmds, p).queue.Some?
    requires forall i :: 0 <= i < |later| ==> eng.kindOf(later[i][0]) != ExecCmd
    ensures Recovered(eng, t', cmds, p).queue.Some? && CutAt(eng, t, cmds, p) <= |p|
    ensures var file := p[..CutAt(eng, t, cmds, p)] + EncodeAll(later);
            Load(eng, t', file, true, true) ==
            Loaded(Recovered(eng, t', cmds, p).session.ds,
                   BeforeMulti(eng, cmds[..Complete(cmds, |p|)] + later))
  {
    hide Load;
    hide BeforeMulti;
    hide LoadAll;
    hide EncodeAll;
    hide Complete;
    hide Open;
    var whole := cmds[..Complete(cmds, |p|)];
    CompleteIsPrefix(cmds, p);
    QueueIsOpen(eng, t, whole);
    QueueIsOpen(eng, t', whole);
    assert p[..CutAt(eng, t, cmds, p)] == EncodeAll(whole);
    LoadSwallows(eng, t', whole, later);
  }

  lemma LoaderIsClosed(eng: Engine, t: int, log: seq<Argv>)
    requires Commands(log) && !Open(eng, log)
    ensures LoadAll(eng, t, START, log) == Loader(RunAll(eng, t, FRESH, log), None)
  {
    hide Open;
    hide RunAll;
    hide LoadAll;
    SettleAll(eng, t, START, log);
    QueueIsOpen(eng, t, log);
  }

  /** The other case: as soon as the commands appended after such a recovery close the transaction,
      with an EXEC of their own, the next start runs the half transaction that the recovery had
      dropped, together with everything appended, and cuts nothing. */
  lemma TornTransactionIsExecuted(eng: Engine, t: int, t': int, cmds: seq<Argv>, p: Bytes, later: seq<Argv>)
    requires Commands(cmds) && p <= EncodeAll(cmds) && p != "" && Commands(later)
    requires Torn(cmds, p) && Recovered(eng, t, cmds, p).queue.Some?
    requires !Open(eng, cmds[..Complete(cmds, |p|)] + later)
    ensures CutAt(eng, t, cmds, p) <= |p|
    ensures var file := p[..CutAt(eng, t, cmds, p)] + EncodeAll(later);
            Load(eng, t', file, true, true) ==
            Loaded(RunAll(eng, t', FRESH, cmds[..Complete(cmds, |p|)] + later).ds, |file|)
  {
    hide Load;
    hide BeforeMulti;
    hide LoadAll;
    hide EncodeAll;
    hide Complete;
    hide RunAll;
    var whole := cmds[..Complete(cmds, |p|)];
    CompleteIsPrefix(cmds, p);
    QueueIsOpen(eng, t, whole);
    assert p[..CutAt(eng, t, cmds, p)] == EncodeAll(whole);
    EncodeAllConcat(whole, later);
    assert whole + later != [] by { assert whole != []; }
    hide Open;
    LoadWhole(eng, t', whole + later);
    LoaderIsClosed(eng, t', whole + later);
  }

  lemma LoadSwallows(eng: Engine, t: int, whole: seq<Argv>, later: seq<Argv>)
    requires Commands(whole) && Commands(later) && Open(eng, whole)
    requires forall i :: 0 <= i < |later| ==> eng.kindOf(later[i][0]) != ExecCmd
    ensures Load(eng, t, EncodeAll(whole) + EncodeAll(later), true, true) ==
            Loaded(LoadAll(eng, t, START, whole).session.ds, BeforeMulti(eng, whole + later))
  {
    hide Load;
    hide BeforeMulti;
    hide LoadAll;
    hide EncodeAll;
    QueueIsOpen(eng, t, whole);
    QueueSwallows(eng, t, LoadAll(eng, t, START, whole), later);
    LoadAllConcat(eng, t, START, whole, later);
    EncodeAllConcat(whole, later);
    LoadWhole(eng, t, whole + later);
  }
}
