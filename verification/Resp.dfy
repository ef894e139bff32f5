/**
  The command format of the append only file: RESP arrays of bulk strings.
  One char of a Dafny string stands for one byte.
 */
module Resp {
  import opened Text
  import opened Decimal

  type Bytes = string
  type Argv = seq<Bytes>

  const CRLF: Bytes := "\r\n"

  // ----- printer ------------------------------------------------------------

  function Header(mark: char, n: nat): Bytes {
    [mark] + Print(n) + CRLF
  }

  function EncodeArg(a: Bytes): Bytes {
    Header('$', |a|) + a + CRLF
  }

  function EncodeArgs(args: Argv): Bytes {
    if args == [] then "" else EncodeArg(args[0]) + EncodeArgs(args[1..])
  }

  function Encode(argv: Argv): (b: Bytes)
    ensures |b| >= 1
  {
    Header('*', |argv|) + EncodeArgs(argv)
  }

  function EncodeAll(cmds: seq<Argv>): Bytes {
    if cmds == [] then "" else Encode(cmds[0]) + EncodeAll(cmds[1..])
  }

  lemma {:induction false} EncodeArgsConcat(a: Argv, b: Argv)
    ensures EncodeArgs(a + b) == EncodeArgs(a) + EncodeArgs(b)
  {
    if a == [] {
      assert a + b == b;
    } else {
      assert (a + b)[1..] == a[1..] + b;
      EncodeArgsConcat(a[1..], b);
    }
  }

  lemma {:induction false} EncodeAllConcat(a: seq<Argv>, b: seq<Argv>)
    ensures EncodeAll(a + b) == EncodeAll(a) + EncodeAll(b)
  {
    if a == [] {
      assert a + b == b;
    } else {
      assert (a + b)[1..] == a[1..] + b;
      EncodeAllConcat(a[1..], b);
    }
  }

  lemma EncodeAllOne(argv: Argv)
    ensures EncodeAll([argv]) == Encode(argv)
  {
    assert [argv][1..] == [];
    assert EncodeAll([]) == "";
  }

  lemma EncodeArgsSnoc(args: Argv, a: Bytes)
    ensures EncodeArgs(args + [a]) == EncodeArgs(args) + EncodeArg(a)
  {
    EncodeArgsConcat(args, [a]);
    assert [a][1..] == [];
    assert EncodeArgs([a]) == EncodeArg(a) + "";
  }

  lemma NoArgs()
    ensures EncodeArgs([]) == ""
  {
  }

  /** catAppendOnlyGenericCommand: append one command to an sds, argument by argument. */
  method CatGenericCommand(dst: Bytes, argv: Argv) returns (out: Bytes)
    ensures out == dst + Encode(argv)
  {
    hide EncodeArgs;
    var cmd := Header('*', |argv|);
    assert argv[..0] == [];
    NoArgs();
    var j := 0;
    while j < |argv|
      invariant 0 <= j <= |argv|
      invariant cmd == Header('*', |argv|) + EncodeArgs(argv[..j])
    {
      var bulk := ['$'] + Print(|argv[j]|) + CRLF;
      bulk := bulk + argv[j] + CRLF;
      EncodeArgsSnoc(argv[..j], argv[j]);
      assert argv[..j] + [argv[j]] == argv[..j + 1];
      cmd := cmd + bulk;
      j := j + 1;
    }
    assert argv[..j] == argv;
    out := dst + cmd;
  }

  // ----- reader -------------------------------------------------------------

  /** Number of bytes fgets consumes: through the first newline, or to the end of file. */
  function Line(s: Bytes): (n: nat)
    ensures n <= |s|
    ensures s != "" ==> n >= 1
  {
    if s == "" then 0 else if s[0] == '\n' then 1 else 1 + Line(s[1..])
  }

  /** How reading one piece of the file can end. Abort: the process dies on a nonsensical
      header (a negative length, or a NUL byte right after the star). */
  datatype Read = Got(argv: Argv, rest: Bytes) | AtEof | Short | Bad | Abort

  /** Reads n arguments from the remaining bytes s of the file. */
  function ReadArgs(s: Bytes, n: nat): (r: Read)
    ensures r.Got? ==> |r.argv| == n && |r.rest| <= |s| && (n > 0 ==> |r.rest| < |s|)
    ensures r != AtEof
    decreases n
  {
    if n == 0 then Got([], s)
    else if s == "" then Short
    else if s[0] != '$' then Bad
    else
      var k := Line(s);
      var len := Strtol(s[1..k]);
      var body := s[k..];
      if len < 0 then Abort
      else if |body| < len then Short
      else if |body| - len < 2 then Short
      else
        var r := ReadArgs(body[len + 2..], n - 1);
        if r.Got? then Got([body[..len]] + r.argv, r.rest) else r
  }

  /** Reads the next command from the remaining bytes s of the file. */
  function ReadCommand(s: Bytes): (r: Read)
    ensures r.Got? ==> |r.argv| >= 1 && |r.rest| < |s|
    ensures r == AtEof <==> s == ""
  {
    if s == "" then AtEof
    else if s[0] != '*' then Bad
    else if |s| == 1 then Short
    else if s[1] == '\0' then Abort
    else
      var k := Line(s);
      var argc := Strtol(s[1..k]);
      if argc < 1 then Bad else ReadArgs(s[k..], argc)
  }

  // ----- reading back what was printed --------------------------------------

  lemma {:induction false} LineSpan(a: Bytes, b: Bytes)
    requires '\n' !in a
    ensures Line(a + ['\n'] + b) == |a| + 1
    ensures Line(a) == |a|
  {
    if a == "" {
    } else {
      assert (a + ['\n'] + b)[1..] == a[1..] + ['\n'] + b;
      LineSpan(a[1..], b);
    }
  }

  lemma HeaderLine(mark: char, n: nat, rest: Bytes)
    requires mark != '\n'
    ensures var s := Header(mark, n) + rest;
            && Line(s) == |Header(mark, n)|
            && Strtol(s[1..Line(s)]) == n
            && s[Line(s)..] == rest
  {
    var h := [mark] + Print(n) + ['\r'];
    var s := Header(mark, n) + rest;
    assert '\n' !in Print(n) by {
      forall i | 0 <= i < |Print(n)| ensures Print(n)[i] != '\n' { assert IsDigit(Print(n)[i]); }
    }
    LineSpan(h, rest);
    assert s == h + ['\n'] + rest;
    assert s[1..Line(s)] == Print(n) + CRLF;
    StrtolPrint(n, CRLF);
  }

  /** The bytes behind the header of an argument are its value, CRLF and the rest. */
  lemma BodySlices(a: Bytes, tail: Bytes)
    ensures var body := a + CRLF + tail;
            |body| == |a| + 2 + |tail| && body[..|a|] == a && body[|a| + 2..] == tail
  {
  }

  lemma EncodeArgBody(a: Bytes, tail: Bytes)
    ensures EncodeArg(a) + tail == Header('$', |a|) + (a + CRLF + tail)
  {
    hide Header;
    var h := Header('$', |a|);
    Assoc(h, a, CRLF);
    Assoc(h, a + CRLF, tail);
  }

  /** Reading steps over one complete argument. */
  lemma ReadArgStep(a: Bytes, tail: Bytes, n: nat)
    requires n >= 1
    ensures var r := ReadArgs(tail, n - 1);
            ReadArgs(EncodeArg(a) + tail, n) == if r.Got? then Got([a] + r.argv, r.rest) else r
  {
    var s := EncodeArg(a) + tail;
    var body := a + CRLF + tail;
    EncodeArgBody(a, tail);
    HeaderLine('$', |a|, body);
    BodySlices(a, tail);
    assert s[0] == '$';
    hide EncodeArg;
    hide Header;
    hide Line;
    hide Strtol;
  }

  lemma ReadNoArgs(s: Bytes)
    ensures ReadArgs(s, 0) == Got([], s)
  {
  }

  lemma {:induction false} ReadArgsComplete(args: Argv, rest: Bytes)
    ensures ReadArgs(EncodeArgs(args) + rest, |args|) == Got(args, rest)
  {
    hide EncodeArg;
    hide ReadArgs;
    if args == [] {
      assert EncodeArgs(args) + rest == rest;
      ReadNoArgs(rest);
    } else {
      ReadArgsComplete(args[1..], rest);
      Assoc(EncodeArg(args[0]), EncodeArgs(args[1..]), rest);
      ReadArgStep(args[0], EncodeArgs(args[1..]) + rest, |args|);
      assert [args[0]] + args[1..] == args;
    }
  }

  /** A complete printed command is read back exactly, and reading stops right behind it. */
  lemma ReadComplete(argv: Argv, rest: Bytes)
    requires |argv| >= 1
    ensures ReadCommand(Encode(argv) + rest) == Got(argv, rest)
  {
    hide ReadCommand;
    hide ReadArgs;
    hide Header;
    hide EncodeArgs;
    HeadedCommand(|argv|, EncodeArgs(argv) + rest);
    Assoc(Header('*', |argv|), EncodeArgs(argv), rest);
    ReadArgsComplete(argv, rest);
  }

  /** Behind a complete header the reader goes on with the arguments. */
  lemma HeadedCommand(argc: nat, body: Bytes)
    requires argc >= 1
    ensures ReadCommand(Header('*', argc) + body) == ReadArgs(body, argc)
  {
    var s := Header('*', argc) + body;
    HeaderLine('*', argc, body);
    assert s[1] == Print(argc)[0];
    hide ReadArgs;
    hide Line;
    hide Strtol;
  }

  lemma {:induction false} BadArgs(args: Argv, n: nat, junk: Bytes)
    requires |args| < n && junk != "" && junk[0] != '$'
    ensures ReadArgs(EncodeArgs(args) + junk, n) == Bad
  {
    hide EncodeArg;
    if args == [] {
      assert EncodeArgs(args) + junk == junk;
    } else {
      hide ReadArgs;
      BadArgs(args[1..], n - 1, junk);
      Assoc(EncodeArg(args[0]), EncodeArgs(args[1..]), junk);
      ReadArgStep(args[0], EncodeArgs(args[1..]) + junk, n);
    }
  }

  /** A byte other than the mark that is due makes the command badly formed, wherever it stands: in
      place of the star, or in place of the dollar of any argument. So does a count below one. */
  lemma ReadBad(args: Argv, n: nat, junk: Bytes)
    requires junk != ""
    ensures junk[0] != '*' ==> ReadCommand(junk) == Bad
    ensures |args| < n && junk[0] != '$' ==> ReadCommand(Header('*', n) + (EncodeArgs(args) + junk)) == Bad
    ensures ReadCommand(Header('*', 0) + junk) == Bad
  {
    hide ReadArgs;
    hide EncodeArgs;
    if |args| < n && junk[0] != '$' {
      HeadedCommand(n, EncodeArgs(args) + junk);
      BadArgs(args, n, junk);
    }
    ReadNoCount(junk);
  }

  lemma ReadNoCount(body: Bytes)
    ensures ReadCommand(Header('*', 0) + body) == Bad
  {
    var s := Header('*', 0) + body;
    HeaderLine('*', 0, body);
    assert s[0] == '*' && s[1] == Print(0)[0];
    hide ReadArgs;
    hide Line;
    hide Strtol;
  }

  lemma CutHeaderLine(mark: char, n: nat, p: Bytes)
    requires mark != '\n' && p < Header(mark, n)
    ensures Line(p) == |p|
  {
    var h := Header(mark, n);
    forall i | 0 <= i < |p| ensures p[i] != '\n' {
      assert p[i] == h[i];
      if 1 <= i <= |Print(n)| {
        assert h[i] == Print(n)[i - 1];
        assert IsDigit(Print(n)[i - 1]);
      }
    }
    LineSpan(p, "");
  }

  lemma LeadingDigit(u: Bytes)
    requires u != "" && IsDigit(u[0])
    ensures Strtol(u) >= DigitValue(u[0])
  {
    assert !IsSpace(u[0]);
    assert Strtol(u) == Scan(u, 0);
  }

  /** A header line cut by the end of file is one line whose number is not negative, and is
      positive as soon as a digit of a positive number is there. */
  lemma CutHeader(mark: char, n: nat, p: Bytes)
    requires mark != '\n' && p != "" && p < Header(mark, n)
    ensures p[0] == mark && Line(p) == |p| && Strtol(p[1..]) >= 0
    ensures n > 0 && |p| > 1 ==> Strtol(p[1..]) >= 1
    ensures |p| > 1 ==> p[1] != '\0'
  {
    hide Header;
    hide Line;
    hide Print;
    hide Strtol;
    CutHeaderLine(mark, n, p);
    HeaderStart(mark, n);
    var h := Header(mark, n);
    assert p[0] == h[0];
    if |p| > 1 {
      assert p[1] == h[1];
      assert p[1..][0] == p[1];
      LeadingDigit(p[1..]);
    } else {
      assert p[1..] == "";
      StrtolEmpty();
    }
  }

  lemma HeaderStart(mark: char, n: nat)
    ensures |Header(mark, n)| >= 2 && Header(mark, n)[0] == mark && IsDigit(Header(mark, n)[1])
    ensures n > 0 ==> DigitValue(Header(mark, n)[1]) >= 1
  {
    assert Header(mark, n)[1] == Print(n)[0];
  }

  lemma StrtolEmpty()
    ensures Strtol("") == 0
  {
  }

  lemma CutArg(a: Bytes, p: Bytes, n: nat)
    requires p < EncodeArg(a) && n >= 1
    ensures ReadArgs(p, n) == Short
  {
    var h := Header('$', |a|);
    Assoc(h, a, CRLF);
    if p == "" {
    } else if |p| < |h| {
      CutWithin(h, a + CRLF, p);
      CutHeader('$', |a|, p);
      assert p[1..Line(p)] == p[1..];
      assert p[Line(p)..] == "";
    } else {
      CutBehind(h, a + CRLF, p);
      HeaderLine('$', |a|, p[|h|..]);
      assert p[0] == h[0] == '$';
      hide Header;
      hide Line;
      hide Strtol;
    }
  }

  lemma CutBehind(e: Bytes, tail: Bytes, p: Bytes)
    requires p <= e + tail && |p| >= |e|
    ensures p == e + p[|e|..] && p[|e|..] <= tail && (p < e + tail ==> p[|e|..] < tail)
  {
    assert p == (e + tail)[..|p|];
    assert p[|e|..] == (e + tail)[|e|..|p|] == tail[..|p| - |e|];
  }

  lemma CutWithin(e: Bytes, tail: Bytes, p: Bytes)
    requires p < e + tail && |p| < |e|
    ensures p < e
  {
    assert e == (e + tail)[..|e|];
  }

  lemma {:induction false} CutArgs(args: Argv, p: Bytes)
    requires p < EncodeArgs(args)
    ensures ReadArgs(p, |args|) == Short
  {
    hide EncodeArg;
    hide ReadArgs;
    var e, tail := EncodeArg(args[0]), EncodeArgs(args[1..]);
    if |p| < |e| {
      CutWithin(e, tail, p);
      CutArg(args[0], p, |args|);
    } else {
      CutBehind(e, tail, p);
      CutArgs(args[1..], p[|e|..]);
      ReadArgStep(args[0], p[|e|..], |args|);
    }
  }

  /** A printed command cut anywhere strictly inside is a short read, never a format error. */
  lemma ReadCut(argv: Argv, p: Bytes)
    requires |argv| >= 1 && p != "" && p < Encode(argv)
    ensures ReadCommand(p) == Short
  {
    var h := Header('*', |argv|);
    if |p| < |h| {
      CutWithin(h, EncodeArgs(argv), p);
      CutHeader('*', |argv|, p);
      assert p[1..Line(p)] == p[1..];
      assert p[Line(p)..] == "";
    } else {
      hide Header;
      hide ReadCommand;
      CutBehind(h, EncodeArgs(argv), p);
      HeadedCommand(|argv|, p[|h|..]);
      CutArgs(argv, p[|h|..]);
    }
  }

  /** The reader recovers exactly the printed command list. */
  function ReadAll(s: Bytes): seq<Argv>
    decreases |s|
  {
    var r := ReadCommand(s);
    if r.Got? then [r.argv] + ReadAll(r.rest) else []
  }

  lemma {:induction false} ReadAllPrinted(cmds: seq<Argv>)
    requires forall i :: 0 <= i < |cmds| ==> |cmds[i]| >= 1
    ensures ReadAll(EncodeAll(cmds)) == cmds
  {
    if cmds == [] {
    } else {
      ReadComplete(cmds[0], EncodeAll(cmds[1..]));
      ReadAllPrinted(cmds[1..]);
    }
  }

  /** Printing is unambiguous: equal bytes mean equal command lists. */
  lemma EncodeAllInjective(a: seq<Argv>, b: seq<Argv>)
    requires forall i :: 0 <= i < |a| ==> |a[i]| >= 1
    requires forall i :: 0 <= i < |b| ==> |b[i]| >= 1
    requires EncodeAll(a) == EncodeAll(b)
    ensures a == b
  {
    ReadAllPrinted(a);
    ReadAllPrinted(b);
  }

  /** Every header of an int argument count or a long length, with its CRLF, is at most 22
      bytes, so the 128 byte line buffer of the reader never splits one. */
  lemma HeaderFitsLineBuffer(mark: char, n: nat)
    requires n <= LLONG_MAX
    ensures |Header(mark, n)| <= 22
  {
    assert Pow10(5) == 100_000;
    assert Pow10(10) == 100_000 * Pow10(5);
    assert Pow10(15) == 100_000 * Pow10(10);
    assert Pow10(19) == 10_000 * Pow10(15);
    PrintLength(n, n + 1, 19);
  }
}
