/**
  The ACL file: what ACL SAVE writes, what ACL LOAD makes of a text, and when the second undoes the
  first.
 */
module AclFile {
  import opened Text
  import opened AclRules
  import opened AclDescribe
  import Resp

  // ----- reading --------------------------------------------------------------

  const RULE_TRIM: set<char> := {'\t', '\r', '\n'}
  const LINE_TRIM: set<char> := {' ', '\t', '\r', '\n'}

  function TrimLeft(s: string, cs: set<char>): (r: string)
    ensures forall c :: c in r ==> c in s
  {
    if s != "" && s[0] in cs then TrimLeft(s[1..], cs) else s
  }

  function TrimRight(s: string, cs: set<char>): (r: string)
    ensures r <= s && (r != "" ==> r[|r| - 1] !in cs)
    ensures forall c :: c in r ==> c in s
  {
    if s != "" && s[|s| - 1] in cs then TrimRight(s[..|s| - 1], cs) else s
  }

  /** sdstrim */
  function Trim(s: string, cs: set<char>): (r: string)
    ensures r != "" ==> r[|r| - 1] !in cs
    ensures forall c :: c in r ==> c in s
  {
    TrimRight(TrimLeft(s, cs), cs)
  }

  function Trimmed(ops: seq<string>): (r: seq<string>)
    ensures |r| == |ops| && forall i :: 0 <= i < |ops| ==> r[i] == Trim(ops[i], RULE_TRIM)
  {
    if ops == [] then [] else [Trim(ops[0], RULE_TRIM)] + Trimmed(ops[1..])
  }

  /** The arguments of one line; none for a blank line. */
  function Words(line: string): seq<string> {
    var t := Trim(line, LINE_TRIM);
    if t == "" then [] else Split(t, ' ')
  }

  /** One line, split into its arguments, is fine. */
  predicate LineOk(tb: Table, hash: string -> string, line: seq<string>) {
    && |line| >= 2 && line[0] == "user" && !HasSpaces(line[1])
    && SetAll(tb, hash, FRESH_USER, Trimmed(line[2..])).Done?
  }

  /** The users described by the lines, on top of acc; None as soon as a line is bad. A line
      for a user that exists already replaces it. Blank lines are skipped. */
  function LoadLines(tb: Table, hash: string -> string, lines: seq<string>, acc: map<string, User>): Option<map<string, User>>
    decreases |lines|
  {
    if lines == [] then Some(acc)
    else
      var line := Words(lines[0]);
      if line == [] then LoadLines(tb, hash, lines[1..], acc)
      else if !LineOk(tb, hash, line) then None
      else LoadLines(tb, hash, lines[1..], acc[line[1] := SetAll(tb, hash, FRESH_USER, Trimmed(line[2..])).u])
  }

  /** The fgets loop: a buffer of 1024 bytes, and sdscat stops at a NUL. */
  function ReadFile(text: string): (r: string)
    ensures '\0' !in r
    decreases |text|
  {
    if text == "" then ""
    else
      var n := if Resp.Line(text) < 1023 then Resp.Line(text) else 1023;
      CStr(text[..n]) + ReadFile(text[n..])
  }

  /** The default user of a server that starts. */
  function DefaultUser(tb: Table): User {
    FRESH_USER.(enabled := true, disabled := false, nopass := true, allkeys := true, allcommands := true,
                bits := AllBits(tb))
  }

  /** The users ACL LOAD makes of a file, or None for an error. */
  function LoadText(tb: Table, hash: string -> string, text: string): Option<map<string, User>> {
    LoadLines(tb, hash, Split(ReadFile(text), '\n'), map["default" := DefaultUser(tb)])
  }

  // ----- writing --------------------------------------------------------------

  /** The line of one user, without its newline. */
  function UserLine(tb: Table, name: string, u: User): string
    requires tb.bits >= 1
  {
    Join(["user", name] + Tokens(Describe(tb, u)), ' ')
  }

  /** ACLSaveToFile; order is the order in which the radix tree is walked. */
  function SaveText(tb: Table, users: map<string, User>, order: seq<string>): string
    requires tb.bits >= 1 && forall i :: 0 <= i < |order| ==> order[i] in users
  {
    if order == [] then "" else UserLine(tb, order[0], users[order[0]]) + ['\n'] + SaveText(tb, users, order[1..])
  }

  /** The same users, ALLCOMMANDS being "all bits are set". */
  function Restored(tb: Table, users: map<string, User>): map<string, User> {
    map n | n in users :: users[n].(allcommands := users[n].bits == AllBits(tb))
  }

  // ----- tokens that survive ----------------------------------------------------

  predicate OneWord(s: string) {
    ' ' !in s && '\n' !in s
  }

  /** The end of a rule that survives: no blank, no newline, no tab or carriage return at its end. */
  predicate Clean(s: string) {
    OneWord(s) && (s != "" ==> s[|s| - 1] !in RULE_TRIM)
  }

  predicate CleanSubs(u: User) {
    forall id :: id in u.subs ==> forall i :: 0 <= i < |u.subs[id]| ==> Clean(u.subs[id][i])
  }

  /** A command whose name does not survive is in no rule of the user's description that would need it. */
  predicate NameSaved(tb: Table, u: User, c: Command)
    requires tb.bits >= 1
  {
    && (!OneWord(c.name) ==> c.id !in u.subs)
    && (!Clean(c.name) ==> Follows(tb, u, c.id))
  }

  /** A user that survives ACL SAVE. */
  predicate Savable(tb: Table, u: User)
    requires tb.bits >= 1
  {
    CleanSubs(u) && forall c :: c in tb.commands ==> NameSaved(tb, u, c)
  }

  predicate CleanToken(t: string) {
    && t != "" && ' ' !in t && '\n' !in t && '\0' !in t
    && t[0] !in RULE_TRIM && t[|t| - 1] !in RULE_TRIM
  }

  predicate AllClean(rules: seq<Rule>) {
    forall i :: 0 <= i < |rules| ==> CleanToken(PrintRule(rules[i]))
  }

  lemma NoSpacesIn(s: string)
    requires !HasSpaces(s)
    ensures Clean(s) && '\0' !in s
  {
    forall i | 0 <= i < |s| ensures s[i] != ' ' && s[i] != '\n' && s[i] != '\0' && s[i] !in RULE_TRIM {
    }
  }

  /** A mark and a clean word. */
  lemma MarkedIsClean(mark: string, word: string)
    requires mark != "" && !HasSpaces(mark) && mark[0] !in RULE_TRIM && Clean(word) && '\0' !in word
    ensures CleanToken(mark + word)
  {
    hide HasSpaces;
    NoSpacesIn(mark);
    var t := mark + word;
    assert t[|t| - 1] == if word == "" then mark[|mark| - 1] else word[|word| - 1];
  }

  lemma SubIsClean(name: string, sub: string)
    requires OneWord(name) && '\0' !in name && Clean(sub) && sub != "" && '\0' !in sub
    ensures CleanToken(PrintRule(AddSub(name, sub)))
  {
    var t := "+" + name + "|" + sub;
    assert t[0] == '+' && t[|t| - 1] == sub[|sub| - 1];
  }

  lemma {:induction false} SubRulesClean(name: string, subs: seq<string>)
    requires OneWord(name) && '\0' !in name
    requires forall i :: 0 <= i < |subs| ==> Clean(subs[i]) && subs[i] != "" && '\0' !in subs[i]
    ensures AllClean(SubRules(name, subs))
    decreases |subs|
  {
    hide CleanToken;
    hide PrintRule;
    hide OneWord;
    hide Clean;
    if subs != [] {
      SubIsClean(name, subs[0]);
      SubRulesClean(name, subs[1..]);
    }
  }

  lemma WordsAreClean()
    ensures CleanToken("on") && CleanToken("off") && CleanToken("nopass") && CleanToken("~*")
    ensures CleanToken("+@all") && CleanToken("-@all")
  {
  }

  lemma NamesAreClean(tb: Table, c: Command)
    requires TableOk(tb) && c in tb.commands
    ensures '\0' !in c.name && (!Clean(c.name) ==> c.isModule) && (!OneWord(c.name) ==> !Clean(c.name))
  {
    hide HasSpaces;
    hide Addable;
    var i :| 0 <= i < |tb.commands| && tb.commands[i] == c;
    if !c.isModule { NoSpacesIn(c.name); }
  }

  lemma RulesForClean(tb: Table, u: User, c: Command)
    requires TableOk(tb) && c in tb.commands && CleanSubs(u) && NameSaved(tb, u, c)
    requires c.id in u.subs ==> SubsOk(u.subs[c.id])
    ensures AllClean(RulesFor(u, GuessBits(tb, u), c))
  {
    hide CleanToken;
    hide Clean;
    hide OneWord;
    hide HasSpaces;
    hide GuessBits;
    NamesAreClean(tb, c);
    hide TableOk;
    if Clean(c.name) {
      MarksAreFine();
      MarkedIsClean("+", c.name);
      MarkedIsClean("-", c.name);
    } else {
      ModuleGuess(tb, u, c);
    }
    if c.id in u.subs {
      SubRulesClean(c.name, u.subs[c.id]);
    }
  }

  lemma MarksAreFine()
    ensures forall m :: m in {"+", "-", "#", "~", "+@", "-@"} ==> !HasSpaces(m) && m != "" && m[0] !in RULE_TRIM
  {
  }

  lemma CommandRulesClean(tb: Table, u: User)
    requires TableOk(tb) && CommandsOk(tb, u) && Savable(tb, u)
    ensures AllClean(CommandRules(u, GuessBits(tb, u), tb.commands))
  {
    hide CleanToken;
    hide CleanSubs;
    hide NameSaved;
    hide RulesFor;
    hide CommandRules;
    hide SubsOk;
    hide PrintRule;
    hide OutsideUniform;
    TableKnows(tb);
    hide TableOk;
    var rules := CommandRules(u, GuessBits(tb, u), tb.commands);
    forall k | 0 <= k < |rules| ensures CleanToken(PrintRule(rules[k])) {
      var c := CommandRulesFrom(u, GuessBits(tb, u), tb.commands, k);
      RulesForClean(tb, u, c);
      var i :| 0 <= i < |RulesFor(u, GuessBits(tb, u), c)| && RulesFor(u, GuessBits(tb, u), c)[i] == rules[k];
    }
  }

  lemma {:induction false} CategoryRulesClean(tb: Table, u: User, cats: seq<string>, additive: bool)
    requires forall c :: c in cats ==> CategoryName(c)
    ensures AllClean(CategoryRules(tb, u, cats, additive))
    decreases |cats|
  {
    hide CleanToken;
    hide HasSpaces;
    hide Clean;
    hide WorthIt;
    hide Lower;
    if cats != [] {
      MarksAreFine();
      assert cats[0] in cats;
      NoSpacesIn(cats[0]);
      MarkedIsClean("+@", cats[0]);
      MarkedIsClean("-@", cats[0]);
      CategoryRulesClean(tb, u, cats[1..], additive);
    }
  }

  lemma HashHasNoSpaces(h: string)
    requires ValidHash(h)
    ensures !HasSpaces(h)
  {
  }

  lemma {:induction false} ListRulesClean(hs: seq<string>, ps: seq<string>)
    requires forall i :: 0 <= i < |hs| ==> ValidHash(hs[i])
    requires forall i :: 0 <= i < |ps| ==> !HasSpaces(ps[i])
    ensures AllClean(HashRules(hs)) && AllClean(PatternRules(ps))
    decreases |hs| + |ps|
  {
    hide CleanToken;
    hide HasSpaces;
    hide ValidHash;
    MarksAreFine();
    if hs != [] {
      HashHasNoSpaces(hs[0]);
      NoSpacesIn(hs[0]);
      MarkedIsClean("#", hs[0]);
      ListRulesClean(hs[1..], ps);
    } else if ps != [] {
      NoSpacesIn(ps[0]);
      MarkedIsClean("~", ps[0]);
      ListRulesClean(hs, ps[1..]);
    }
  }

  lemma CleanConcat(a: seq<Rule>, b: seq<Rule>)
    requires AllClean(a) && AllClean(b)
    ensures AllClean(a + b)
  {
    hide CleanToken;
    hide PrintRule;
  }

  lemma RestClean(u: User)
    requires ListsOk(u)
    ensures AllClean(DescribeRest(u))
  {
    hide CleanToken;
    hide HasSpaces;
    hide ValidHash;
    hide HashRules;
    hide PatternRules;
    WordsAreClean();
    ListRulesClean(u.passwords, u.patterns);
  }

  lemma CommandsClean(tb: Table, u: User)
    requires TableOk(tb) && CommandsOk(tb, u) && Savable(tb, u)
    ensures AllClean(DescribeCommands(tb, u)) && |DescribeCommands(tb, u)| >= 1
  {
    hide CleanToken;
    hide Savable;
    hide CommandsOk;
    hide NameOk;
    hide CategoryName;
    hide CategoryRules;
    hide CommandRules;
    hide SubsOk;
    hide GuessBits;
    hide AllClean;
    CategoryRulesClean(tb, u, tb.categories, Additive(tb, u));
    CommandRulesClean(tb, u);
    StartClean(tb, u);
    CleanConcat([StartRule(tb, u)], CategoryRules(tb, u, tb.categories, Additive(tb, u)));
    CleanConcat([StartRule(tb, u)] + CategoryRules(tb, u, tb.categories, Additive(tb, u)),
                CommandRules(u, GuessBits(tb, u), tb.commands));
  }

  lemma StartClean(tb: Table, u: User)
    requires tb.bits >= 1
    ensures AllClean([StartRule(tb, u)])
  {
    hide CleanToken;
    WordsAreClean();
  }

  /** All tokens of a user without awkward subcommands and names survive. */
  lemma DescribeClean(tb: Table, u: User)
    requires TableOk(tb) && UserOk(tb, u) && Savable(tb, u)
    ensures AllClean(Describe(tb, u)) && |Describe(tb, u)| >= 1
  {
    hide AllClean;
    hide Savable;
    hide TableOk;
    hide ListsOk;
    hide CommandsOk;
    hide DescribeRest;
    hide DescribeCommands;
    IdsInRange(tb);
    RestClean(u);
    CommandsClean(tb, u);
    CleanConcat(DescribeRest(u), DescribeCommands(tb, u));
  }

  // ----- a line is read back ----------------------------------------------------

  lemma TrimNothing(s: string, cs: set<char>)
    requires s != "" && s[0] !in cs && s[|s| - 1] !in cs
    ensures Trim(s, cs) == s
  {
  }

  lemma TrimmedNothing(ops: seq<string>)
    requires forall i :: 0 <= i < |ops| ==> CleanToken(ops[i])
    ensures Trimmed(ops) == ops
  {
    hide Trim;
    hide Trimmed;
    forall i | 0 <= i < |ops| ensures Trimmed(ops)[i] == ops[i] {
      TrimNothing(ops[i], RULE_TRIM);
    }
  }

  lemma {:induction false} JoinEnds(parts: seq<string>, sep: char)
    requires parts != [] && parts[|parts| - 1] != ""
    ensures var j := Join(parts, sep); j != "" && j[|j| - 1] == parts[|parts| - 1][|parts[|parts| - 1]| - 1]
    ensures parts[0] != "" ==> Join(parts, sep)[0] == parts[0][0]
  {
    if |parts| > 1 {
      JoinEnds(parts[1..], sep);
      assert parts[1..][|parts| - 2] == parts[|parts| - 1];
    }
  }

  lemma {:induction false} JoinAvoids(parts: seq<string>, sep: char, c: char)
    requires c != sep && forall i :: 0 <= i < |parts| ==> c !in parts[i]
    ensures c !in Join(parts, sep)
  {
    if |parts| > 1 {
      JoinAvoids(parts[1..], sep, c);
    }
  }

  lemma TokenAvoids(t: string)
    requires CleanToken(t)
    ensures t != "" && ' ' !in t && '\n' !in t && '\0' !in t && t[|t| - 1] !in LINE_TRIM
  {
    assert t[|t| - 1] in t;
  }

  lemma PartsAvoid(name: string, tokens: seq<string>)
    requires !HasSpaces(name) && forall i :: 0 <= i < |tokens| ==> CleanToken(tokens[i])
    ensures var parts := ["user", name] + tokens;
            forall i :: 0 <= i < |parts| ==> ' ' !in parts[i] && '\n' !in parts[i] && '\0' !in parts[i]
  {
    hide CleanToken;
    NoSpacesIn(name);
    hide HasSpaces;
    var parts := ["user", name] + tokens;
    forall i | 0 <= i < |parts| ensures ' ' !in parts[i] && '\n' !in parts[i] && '\0' !in parts[i] {
      if i >= 2 {
        assert parts[i] == tokens[i - 2];
        TokenAvoids(parts[i]);
      }
    }
  }

  lemma UserStarts(line: string)
    requires line != "" && line[0] == "user"[0]
    ensures line[0] !in LINE_TRIM
  {
  }

  lemma LineTrims(name: string, tokens: seq<string>)
    requires !HasSpaces(name) && tokens != [] && forall i :: 0 <= i < |tokens| ==> CleanToken(tokens[i])
    ensures var line := Join(["user", name] + tokens, ' '); line != "" && Trim(line, LINE_TRIM) == line
  {
    hide HasSpaces;
    hide CleanToken;
    hide Join;
    hide Trim;
    hide TrimLeft;
    hide TrimRight;
    var parts := ["user", name] + tokens;
    TokenAvoids(tokens[|tokens| - 1]);
    assert parts[|parts| - 1] == tokens[|tokens| - 1];
    JoinEnds(parts, ' ');
    UserStarts(Join(parts, ' '));
    TrimNothing(Join(parts, ' '), LINE_TRIM);
  }

  lemma LineAvoids(name: string, tokens: seq<string>)
    requires !HasSpaces(name) && forall i :: 0 <= i < |tokens| ==> CleanToken(tokens[i])
    ensures var line := Join(["user", name] + tokens, ' ');
            '\n' !in line && '\0' !in line && Split(line, ' ') == ["user", name] + tokens
  {
    hide HasSpaces;
    hide CleanToken;
    hide Join;
    hide Split;
    var parts := ["user", name] + tokens;
    PartsAvoid(name, tokens);
    JoinAvoids(parts, ' ', '\n');
    JoinAvoids(parts, ' ', '\0');
    assert forall p :: p in parts ==> ' ' !in p;
    SplitJoin(parts, ' ');
  }

  lemma LineIsRead(name: string, tokens: seq<string>)
    requires !HasSpaces(name) && tokens != [] && forall i :: 0 <= i < |tokens| ==> CleanToken(tokens[i])
    ensures var line := Join(["user", name] + tokens, ' ');
            Words(line) == ["user", name] + tokens && '\n' !in line && '\0' !in line
  {
    hide HasSpaces;
    hide CleanToken;
    hide Join;
    hide Split;
    hide Trim;
    LineTrims(name, tokens);
    LineAvoids(name, tokens);
  }

  lemma SplitLine(line: string, rest: string)
    requires '\n' !in line
    ensures Split(line + ['\n'] + rest, '\n') == [line] + Split(rest, '\n')
  {
    var s := line + ['\n'] + rest;
    FindIn(line, '\n', rest);
    assert s[..|line|] == line && s[|line| + 1..] == rest;
  }

  lemma {:induction false} ReadsAll(text: string)
    requires '\0' !in text
    ensures ReadFile(text) == text
    decreases |text|
  {
    if text != "" {
      var n := if Resp.Line(text) < 1023 then Resp.Line(text) else 1023;
      assert text == text[..n] + text[n..];
      CStrWhole(text[..n]);
      ReadsAll(text[n..]);
    }
  }

  // ----- SAVE then LOAD ---------------------------------------------------------

  predicate UsersOk(tb: Table, users: map<string, User>)
    requires tb.bits >= 1
  {
    forall n :: n in users ==> !HasSpaces(n) && UserOk(tb, users[n])
  }

  predicate AllSavable(tb: Table, users: map<string, User>)
    requires tb.bits >= 1
  {
    forall n :: n in users ==> Savable(tb, users[n])
  }

  lemma UserIsRead(tb: Table, hash: string -> string, name: string, u: User)
    requires TableOk(tb) && HashOk(hash) && !HasSpaces(name) && UserOk(tb, u) && Savable(tb, u)
    ensures var line := UserLine(tb, name, u);
            && '\n' !in line && '\0' !in line && |Words(line)| >= 2 && Words(line)[1] == name
            && LineOk(tb, hash, Words(line))
            && SetAll(tb, hash, FRESH_USER, Trimmed(Words(line)[2..])) == Done(u.(allcommands := u.bits == AllBits(tb)))
  {
    hide TableOk;
    hide UserOk;
    hide Savable;
    hide CleanToken;
    hide PrintRule;
    hide HasSpaces;
    hide Describe;
    hide SetAll;
    hide Words;
    hide Join;
    hide Trimmed;
    IdsInRange(tb);
    DescribeClean(tb, u);
    var ts := Tokens(Describe(tb, u));
    LineIsRead(name, ts);
    assert (["user", name] + ts)[2..] == ts;
    TrimmedNothing(ts);
    DescriptionRebuildsUser(tb, hash, u);
  }

  function Entered(tb: Table, users: map<string, User>, order: seq<string>, acc: map<string, User>): map<string, User>
    requires forall i :: 0 <= i < |order| ==> order[i] in users
    decreases |order|
  {
    if order == [] then acc
    else Entered(tb, users, order[1..], acc[order[0] := users[order[0]].(allcommands := users[order[0]].bits == AllBits(tb))])
  }

  lemma {:induction false} SavedIsLoaded(tb: Table, hash: string -> string, users: map<string, User>, order: seq<string>, acc: map<string, User>)
    requires TableOk(tb) && HashOk(hash) && UsersOk(tb, users) && AllSavable(tb, users)
    requires forall i :: 0 <= i < |order| ==> order[i] in users
    ensures '\0' !in SaveText(tb, users, order)
    ensures LoadLines(tb, hash, Split(SaveText(tb, users, order), '\n'), acc) == Some(Entered(tb, users, order, acc))
    decreases |order|
  {
    hide TableOk;
    hide UserOk;
    hide Savable;
    hide HasSpaces;
    hide UserLine;
    hide LineOk;
    hide Words;
    hide SetAll;
    hide Trimmed;
    IdsInRange(tb);
    if order == [] {
      NothingSaved();
    } else {
      var n := order[0];
      var line, rest := UserLine(tb, n, users[n]), SaveText(tb, users, order[1..]);
      UserIsRead(tb, hash, n, users[n]);
      SplitLine(line, rest);
      assert ([line] + Split(rest, '\n'))[1..] == Split(rest, '\n');
      SavedIsLoaded(tb, hash, users, order[1..], acc[n := users[n].(allcommands := users[n].bits == AllBits(tb))]);
    }
  }

  lemma NothingSaved()
    ensures Split("", '\n') == [""] && Words("") == []
  {
  }

  lemma {:induction false} EnteredAt(tb: Table, users: map<string, User>, order: seq<string>, acc: map<string, User>, n: string)
    requires forall i :: 0 <= i < |order| ==> order[i] in users
    ensures var r := Entered(tb, users, order, acc);
            && (n in r <==> n in order || n in acc)
            && (n in order ==> r[n] == users[n].(allcommands := users[n].bits == AllBits(tb)))
            && (n !in order && n in acc ==> r[n] == acc[n])
    decreases |order|
  {
    if order != [] {
      EnteredAt(tb, users, order[1..], acc[order[0] := users[order[0]].(allcommands := users[order[0]].bits == AllBits(tb))], n);
      assert order == [order[0]] + order[1..];
    }
  }

  lemma CleanIsRestored(tb: Table, hash: string -> string, users: map<string, User>, order: seq<string>)
    requires TableOk(tb) && HashOk(hash) && UsersOk(tb, users) && AllSavable(tb, users)
    requires "default" in users && forall n :: n in order <==> n in users
    ensures LoadText(tb, hash, SaveText(tb, users, order)) == Some(Restored(tb, users))
  {
    hide TableOk;
    hide UsersOk;
    hide AllSavable;
    hide LoadLines;
    hide SaveText;
    hide Entered;
    IdsInRange(tb);
    var acc := map["default" := DefaultUser(tb)];
    SavedIsLoaded(tb, hash, users, order, acc);
    ReadsAll(SaveText(tb, users, order));
    var r := Entered(tb, users, order, acc);
    forall n ensures n in r <==> n in users {
      EnteredAt(tb, users, order, acc, n);
    }
    forall n | n in users ensures r[n] == Restored(tb, users)[n] {
      EnteredAt(tb, users, order, acc, n);
    }
    assert r == Restored(tb, users);
  }

  // ----- what is loaded is clean ------------------------------------------------

  lemma SplitWithin(s: string, sep: char, c: char)
    requires c !in s
    ensures forall p :: p in Split(s, sep) ==> c !in p
    decreases |s|
  {
    var i := Find(s, sep);
    if i < |s| {
      SplitWithin(s[i + 1..], sep, c);
    }
  }

  /** A rule as it arrives from the file. */
  predicate FromFile(op: string) {
    ' ' !in op && '\n' !in op && '\0' !in op && (op != "" ==> op[|op| - 1] !in RULE_TRIM)
  }

  lemma AddSubClean(tb: Table, u: User, id: nat, sub: string)
    requires CleanSubs(u) && Clean(sub)
    ensures CleanSubs(SetBit(tb, AddSubcommand(u, id, sub), id, false))
  {
    hide Clean;
    hide HasNoCase;
  }

  lemma SubsShrink(u: User, v: User)
    requires CleanSubs(u) && v.subs.Keys <= u.subs.Keys && forall id :: id in v.subs ==> v.subs[id] == u.subs[id]
    ensures CleanSubs(v)
  {
    hide Clean;
  }

  lemma SuffixClean(op: string, k: nat)
    requires FromFile(op) && k <= |op|
    ensures Clean(op[k..])
  {
    assert forall c :: c in op[k..] ==> c in op;
  }

  /** A subcommand is the end of the text of its rule. */
  lemma MarkedSub(op: string)
    requires op != ""
    ensures ParseMarked(op, op).AddSub? ==>
            Find(op, '|') < |op| && ParseMarked(op, op).sub == op[Find(op, '|') + 1..]
  {
    hide Lower;
    hide Find;
  }

  lemma ParsedSub(op: string)
    requires FromFile(op)
    ensures ParseRule(op).AddSub? ==> Clean(ParseRule(op).sub)
  {
    hide Lower;
    hide Keyword;
    hide ParseMarked;
    hide Clean;
    CStrWhole(op);
    KeywordIsNoSub(Lower(op));
    if op != "" {
      MarkedSub(op);
      if Find(op, '|') < |op| {
        SuffixClean(op, Find(op, '|') + 1);
      }
    }
  }

  lemma KeywordIsNoSub(low: string)
    ensures Keyword(low).Some? ==> !Keyword(low).value.AddSub?
  {
  }

  predicate TouchesCommands(r: Rule) {
    r.AddCommand? || r.RemoveCommand? || r.AddCategory? || r.RemoveCategory?
  }

  predicate TouchesLists(r: Rule) {
    r.AddPass? || r.AddHash? || r.DelPass? || r.DelHash? || r.AddPattern?
  }

  lemma ListsKeepSubs(tb: Table, hash: string -> string, u: User, r: Rule)
    requires TouchesLists(r) && Effect(tb, hash, u, r).Done?
    ensures Effect(tb, hash, u, r).u.subs == u.subs
  {
    hide ValidHash;
    hide HasSpaces;
    hide AllBits;
    hide AddNew;
    hide Remove;
    hide Lookup;
    hide FindCategory;
    hide SetCategory;
    hide SetBit;
    hide DropSubs;
    hide AddSubcommand;
  }

  lemma OthersKeepSubs(tb: Table, hash: string -> string, u: User, r: Rule)
    requires !r.AddSub? && !TouchesCommands(r) && !TouchesLists(r) && Effect(tb, hash, u, r).Done?
    ensures Effect(tb, hash, u, r).u.subs == u.subs || Effect(tb, hash, u, r).u.subs == map[]
  {
    hide ValidHash;
    hide HasSpaces;
    hide AllBits;
    hide AddNew;
    hide Remove;
    hide Lookup;
    hide FindCategory;
    hide SetCategory;
    hide SetBit;
    hide DropSubs;
    hide AddSubcommand;
  }

  lemma CommandsDropSubs(tb: Table, hash: string -> string, u: User, r: Rule) returns (ids: set<nat>)
    requires TouchesCommands(r) && Effect(tb, hash, u, r).Done?
    ensures Effect(tb, hash, u, r).u.subs == u.subs - ids
  {
    hide Lookup;
    hide FindCategory;
    hide CategoryIds;
    match r
    case AddCommand(n) => ids := {Lookup(tb.commands, n).value.id};
    case RemoveCommand(n) => ids := {Lookup(tb.commands, n).value.id};
    case AddCategory(n) => ids := CategoryIds(tb.commands, FindCategory(tb.categories, n).value);
    case RemoveCategory(n) => ids := CategoryIds(tb.commands, FindCategory(tb.categories, n).value);
  }

  /** Rules other than a subcommand's only drop lists of subcommands. */
  lemma EffectDrops(tb: Table, hash: string -> string, u: User, r: Rule)
    requires !r.AddSub? && Effect(tb, hash, u, r).Done?
    ensures var v := Effect(tb, hash, u, r).u;
            v.subs.Keys <= u.subs.Keys && forall id :: id in v.subs ==> v.subs[id] == u.subs[id]
  {
    hide Effect;
    if TouchesCommands(r) {
      var ids := CommandsDropSubs(tb, hash, u, r);
    } else if TouchesLists(r) {
      ListsKeepSubs(tb, hash, u, r);
    } else {
      OthersKeepSubs(tb, hash, u, r);
    }
  }

  // ----- commands whose names do not survive --------------------------------------

  /** A rule from the file names a command by words of the file. */
  predicate NamesFromFile(r: Rule) {
    && (r.AddCommand? || r.RemoveCommand? ==> Clean(r.name))
    && (r.AddSub? ==> OneWord(r.name))
  }

  lemma PieceIsOneWord(op: string, j: nat, k: nat)
    requires OneWord(op) && j <= k <= |op|
    ensures OneWord(op[j..k])
  {
    assert forall c :: c in op[j..k] ==> c in op;
  }

  lemma MarkedNames(op: string)
    requires op != "" && FromFile(op)
    ensures NamesFromFile(ParseMarked(op, op))
  {
    hide Lower;
    hide OneWord;
    SuffixClean(op, 1);
    hide Clean;
    var k := Find(op, '|');
    hide Find;
    if op[0] == '+' && 1 <= k { FileIsOneWord(op); PieceIsOneWord(op, 1, k); }
  }

  lemma FileIsOneWord(op: string)
    requires FromFile(op)
    ensures OneWord(op)
  {
  }

  lemma KeywordsNameNothing(low: string)
    ensures Keyword(low).Some? ==> NamesFromFile(Keyword(low).value)
  {
  }

  lemma ParsedNames(op: string)
    requires FromFile(op)
    ensures NamesFromFile(ParseRule(op))
  {
    hide Lower;
    hide Keyword;
    hide ParseMarked;
    hide NamesFromFile;
    CStrWhole(op);
    KeywordsNameNothing(Lower(op));
    if op == "" {
      NopNamesNothing();
    } else {
      MarkedNames(op);
    }
  }

  lemma NopNamesNothing()
    ensures NamesFromFile(Nop)
  {
  }

  /** Names that differ in case only survive alike. */
  lemma SameSurvival(a: string, b: string)
    requires Lower(a) == Lower(b)
    ensures OneWord(a) ==> OneWord(b)
    ensures Clean(a) ==> Clean(b)
  {
    assert |a| == |b|;
    forall i | 0 <= i < |b| && b[i] in LINE_TRIM ensures a[i] == b[i] {
      assert LowerChar(a[i]) == Lower(a)[i] == Lower(b)[i] == LowerChar(b[i]);
    }
  }

  lemma AddSubKeepsBits(tb: Table, hash: string -> string, u: User, r: Rule)
    requires r.AddSub? && Effect(tb, hash, u, r).Done?
    ensures Effect(tb, hash, u, r).u.bits == u.bits
  {
    hide Lookup;
    hide HasNoCase;
  }

  lemma RuleKeepsName(tb: Table, hash: string -> string, u: User, r: Rule, c: Command)
    requires TableOk(tb) && c in tb.commands && NameSaved(tb, u, c) && NamesFromFile(r) && Effect(tb, hash, u, r).Done?
    ensures NameSaved(tb, Effect(tb, hash, u, r).u, c)
  {
    hide Effect;
    hide Clean;
    hide OneWord;
    NamesAreClean(tb, c);
    hide TableOk;
    if !Clean(c.name) {
      if Names(r, c) {
        SameSurvival(r.name, c.name);
        assert r.AddSub?;
        AddSubKeepsBits(tb, hash, u, r);
      } else {
        RuleLeavesAlone(tb, hash, u, r, c);
      }
    }
  }

  lemma RuleKeepsSavable(tb: Table, hash: string -> string, u: User, op: string)
    requires TableOk(tb) && Savable(tb, u) && FromFile(op) && SetUser(tb, hash, u, op).Done?
    ensures Savable(tb, SetUser(tb, hash, u, op).u)
  {
    hide ParseRule;
    hide CleanSubs;
    hide FromFile;
    hide Effect;
    hide NameSaved;
    hide NamesFromFile;
    IdsInRange(tb);
    hide TableOk;
    RuleKeepsClean(tb, hash, u, op);
    ParsedNames(op);
    forall c | c in tb.commands ensures NameSaved(tb, SetUser(tb, hash, u, op).u, c) {
      RuleKeepsName(tb, hash, u, ParseRule(op), c);
    }
  }

  lemma RuleKeepsClean(tb: Table, hash: string -> string, u: User, op: string)
    requires CleanSubs(u) && FromFile(op) && SetUser(tb, hash, u, op).Done?
    ensures CleanSubs(SetUser(tb, hash, u, op).u)
  {
    hide ParseRule;
    hide CleanSubs;
    hide Clean;
    hide FromFile;
    hide Effect;
    ParsedSub(op);
    var r := ParseRule(op);
    if r.AddSub? {
      SubEffect(tb, hash, u, r);
    } else {
      EffectDrops(tb, hash, u, r);
      SubsShrink(u, Effect(tb, hash, u, r).u);
    }
  }

  lemma SubEffect(tb: Table, hash: string -> string, u: User, r: Rule)
    requires CleanSubs(u) && r.AddSub? && Clean(r.sub) && Effect(tb, hash, u, r).Done?
    ensures CleanSubs(Effect(tb, hash, u, r).u)
  {
    hide CleanSubs;
    hide Clean;
    hide Lookup;
    hide AddSubcommand;
    hide SetBit;
    AddSubClean(tb, u, Lookup(tb.commands, r.name).value.id, r.sub);
  }

  lemma {:induction false} RulesKeepSavable(tb: Table, hash: string -> string, u: User, ops: seq<string>)
    requires TableOk(tb) && Savable(tb, u) && (forall i :: 0 <= i < |ops| ==> FromFile(ops[i])) && SetAll(tb, hash, u, ops).Done?
    ensures Savable(tb, SetAll(tb, hash, u, ops).u)
    decreases |ops|
  {
    hide Savable;
    hide FromFile;
    hide SetUser;
    IdsInRange(tb);
    hide TableOk;
    if ops != [] {
      RuleKeepsSavable(tb, hash, u, ops[0]);
      RulesKeepSavable(tb, hash, SetUser(tb, hash, u, ops[0]).u, ops[1..]);
    }
  }

  lemma WordsFromFile(line: string)
    requires '\n' !in line && '\0' !in line && |Words(line)| >= 2
    ensures forall i :: 0 <= i < |Trimmed(Words(line)[2..])| ==> FromFile(Trimmed(Words(line)[2..])[i])
  {
    var t := Trim(line, LINE_TRIM);
    SplitHasNoSep(t, ' ');
    SplitWithin(t, ' ', '\n');
    SplitWithin(t, ' ', '\0');
    hide Split;
    hide Trim;
    var ws := Words(line)[2..];
    forall i | 0 <= i < |ws| ensures FromFile(Trimmed(ws)[i]) {
      assert ws[i] in Words(line);
    }
  }

  lemma {:induction false} LoadedLinesSavable(tb: Table, hash: string -> string, lines: seq<string>, acc: map<string, User>)
    requires TableOk(tb) && AllSavable(tb, acc)
    requires forall i :: 0 <= i < |lines| ==> '\n' !in lines[i] && '\0' !in lines[i]
    ensures var r := LoadLines(tb, hash, lines, acc); r.Some? ==> AllSavable(tb, r.value)
    decreases |lines|
  {
    hide Savable;
    hide FromFile;
    hide Words;
    hide SetAll;
    hide Trimmed;
    hide HasSpaces;
    IdsInRange(tb);
    hide TableOk;
    if lines != [] {
      var line := Words(lines[0]);
      if line == [] {
        LoadedLinesSavable(tb, hash, lines[1..], acc);
      } else if LineOk(tb, hash, line) {
        WordsFromFile(lines[0]);
        BlankIsSavable(tb);
        RulesKeepSavable(tb, hash, FRESH_USER, Trimmed(line[2..]));
        LoadedLinesSavable(tb, hash, lines[1..], acc[line[1] := SetAll(tb, hash, FRESH_USER, Trimmed(line[2..])).u]);
      }
    }
  }

  lemma BlankIsSavable(tb: Table)
    requires TableOk(tb)
    ensures Savable(tb, FRESH_USER) && Savable(tb, DefaultUser(tb))
  {
    hide Clean;
    hide OneWord;
    IdsInRange(tb);
    hide TableOk;
    forall c | c in tb.commands ensures Follows(tb, DefaultUser(tb), c.id) {
      assert c.id in Ids(tb.commands);
    }
  }

  /** Whatever text is loaded, no user gets a subcommand or a command that would not survive saving. */
  lemma LoadedIsClean(tb: Table, hash: string -> string, text: string)
    requires TableOk(tb)
    ensures var r := LoadText(tb, hash, text); r.Some? ==> AllSavable(tb, r.value)
  {
    hide LoadLines;
    hide Split;
    hide Savable;
    hide DefaultUser;
    var t := ReadFile(text);
    SplitHasNoSep(t, '\n');
    SplitWithin(t, '\n', '\0');
    BlankIsSavable(tb);
    LoadedLinesSavable(tb, hash, Split(t, '\n'), map["default" := DefaultUser(tb)]);
  }

  /** ACL SAVE followed by ACL LOAD gives the same users, up to ALLCOMMANDS, if and only if no allowed
      subcommand holds a blank or a newline or ends in a tab or carriage return, and every command whose
      name does so has its bit equal to the reserved one (and no subcommands, for a blank or newline). */
  lemma SaveLoadIff(tb: Table, hash: string -> string, users: map<string, User>, order: seq<string>)
    requires TableOk(tb) && HashOk(hash) && UsersOk(tb, users)
    requires "default" in users && forall n :: n in order <==> n in users
    ensures LoadText(tb, hash, SaveText(tb, users, order)) == Some(Restored(tb, users)) <==> AllSavable(tb, users)
  {
    hide UsersOk;
    hide Savable;
    hide LoadText;
    hide SaveText;
    LoadedIsClean(tb, hash, SaveText(tb, users, order));
    IdsInRange(tb);
    hide TableOk;
    if AllSavable(tb, users) {
      CleanIsRestored(tb, hash, users, order);
    } else if LoadText(tb, hash, SaveText(tb, users, order)) == Some(Restored(tb, users)) {
      var n :| n in users && !Savable(tb, users[n]);
      SameSavable(tb, users[n], Restored(tb, users)[n]);
      assert false;
    }
  }

  lemma SameSavable(tb: Table, u: User, v: User)
    requires tb.bits >= 1 && u.subs == v.subs && u.bits == v.bits
    ensures Savable(tb, u) == Savable(tb, v)
  {
    hide Clean;
    hide OneWord;
  }

  // ----- what a text says ---------------------------------------------------------

  /** A line that says nothing, or the keyword, a name without blanks, and rules that are all accepted
      by a new user. */
  predicate GoodLine(tb: Table, hash: string -> string, line: string) {
    var w := Words(line);
    w == [] ||
    (|w| >= 2 && w[0] == "user" && !HasSpaces(w[1]) && SetAll(tb, hash, FRESH_USER, Trimmed(w[2..])).Done?)
  }

  /** The line is about this user. */
  predicate About(line: string, name: string) {
    |Words(line)| >= 2 && Words(line)[1] == name
  }

  function UserOfLine(tb: Table, hash: string -> string, line: string): User
    requires GoodLine(tb, hash, line) && Words(line) != []
  {
    SetAll(tb, hash, FRESH_USER, Trimmed(Words(line)[2..])).u
  }

  /** A text loads exactly if all its lines are good. */
  lemma {:induction false} LinesLoadIff(tb: Table, hash: string -> string, lines: seq<string>, acc: map<string, User>)
    ensures LoadLines(tb, hash, lines, acc).Some? <==> forall i :: 0 <= i < |lines| ==> GoodLine(tb, hash, lines[i])
    decreases |lines|
  {
    hide Words;
    hide SetAll;
    hide Trimmed;
    hide HasSpaces;
    if lines != [] {
      var line := Words(lines[0]);
      assert forall i :: 1 <= i < |lines| ==> lines[i] == lines[1..][i - 1];
      if line == [] {
        LinesLoadIff(tb, hash, lines[1..], acc);
      } else if LineOk(tb, hash, line) {
        LinesLoadIff(tb, hash, lines[1..], acc[line[1] := SetAll(tb, hash, FRESH_USER, Trimmed(line[2..])).u]);
      }
    }
  }

  /** And then every user is what the last line about it makes of a new user; users that no line is
      about are as before. */
  lemma {:induction false} LinesLoadTo(tb: Table, hash: string -> string, lines: seq<string>, acc: map<string, User>, name: string)
    requires LoadLines(tb, hash, lines, acc).Some?
    ensures var r := LoadLines(tb, hash, lines, acc).value;
            if exists i :: 0 <= i < |lines| && About(lines[i], name)
            then exists i :: 0 <= i < |lines| && About(lines[i], name) && GoodLine(tb, hash, lines[i]) &&
                             (forall j :: i < j < |lines| ==> !About(lines[j], name)) &&
                             name in r && r[name] == UserOfLine(tb, hash, lines[i])
            else (name in r <==> name in acc) && (name in r ==> r[name] == acc[name])
    decreases |lines|
  {
    hide Words;
    hide SetAll;
    hide Trimmed;
    hide HasSpaces;
    if lines != [] {
      var line, rest := Words(lines[0]), lines[1..];
      assert forall i :: 1 <= i < |lines| ==> lines[i] == rest[i - 1];
      var acc1 := if line == [] then acc else acc[line[1] := SetAll(tb, hash, FRESH_USER, Trimmed(line[2..])).u];
      LinesLoadTo(tb, hash, rest, acc1, name);
      var r := LoadLines(tb, hash, lines, acc).value;
      if i :| 0 <= i < |rest| && About(rest[i], name) {
        var k :| 0 <= k < |rest| && About(rest[k], name) && GoodLine(tb, hash, rest[k]) &&
                 (forall j :: k < j < |rest| ==> !About(rest[j], name)) &&
                 name in r && r[name] == UserOfLine(tb, hash, rest[k]);
        assert About(lines[k + 1], name) && GoodLine(tb, hash, lines[k + 1]);
        assert forall j :: k + 1 < j < |lines| ==> !About(lines[j], name);
      } else if About(lines[0], name) {
        assert GoodLine(tb, hash, lines[0]);
        assert forall j :: 0 < j < |lines| ==> !About(lines[j], name);
      }
    }
  }

  // ----- everything else is accepted and lost -------------------------------------

  /** The default user, and one user u with the given rules. */
  function TwoUsers(tb: Table, u: User): map<string, User> {
    map["default" := DefaultUser(tb), "u" := u]
  }

  lemma DefaultUserOk(tb: Table)
    requires TableOk(tb)
    ensures UserOk(tb, DefaultUser(tb)) && !HasSpaces("default") && !HasSpaces("u")
  {
  }

  lemma SubAccepted(tb: Table, hash: string -> string, c: Command, sub: string)
    requires TableOk(tb) && HashOk(hash) && c in tb.commands && Addable(c.name) && sub != "" && '\0' !in sub
    ensures var r := SetUser(tb, hash, FRESH_USER, PrintRule(AddSub(c.name, sub)));
            r.Done? && UserOk(tb, r.u) && c.id in r.u.subs && r.u.subs[c.id] == [sub]
  {
    hide ParseRule;
    hide PrintRule;
    hide UserOk;
    TableKnows(tb);
    FreshOk(tb);
    ReadableSub(c.name, sub);
    SetUserKeepsOk(tb, hash, FRESH_USER, PrintRule(AddSub(c.name, sub)));
  }

  /** Any subcommand that holds a blank or a newline, or ends in a tab or carriage return, is accepted
      by SETUSER for any command that it can name, and then ACL SAVE and ACL LOAD do not give the user
      back. */
  lemma AcceptedButNotRestored(tb: Table, hash: string -> string, c: Command, sub: string)
    requires TableOk(tb) && HashOk(hash) && c in tb.commands && Addable(c.name)
    requires sub != "" && '\0' !in sub && !Clean(sub)
    ensures var r := SetUser(tb, hash, FRESH_USER, PrintRule(AddSub(c.name, sub)));
            && r.Done? && tb.bits >= 1
            && LoadText(tb, hash, SaveText(tb, TwoUsers(tb, r.u), ["default", "u"])) != Some(Restored(tb, TwoUsers(tb, r.u)))
  {
    hide TableOk;
    hide Addable;
    hide UserOk;
    hide Clean;
    hide NameSaved;
    hide HasSpaces;
    hide SetUser;
    hide LoadText;
    hide SaveText;
    hide Restored;
    hide PrintRule;
    IdsInRange(tb);
    SubAccepted(tb, hash, c, sub);
    DefaultUserOk(tb);
    var u := SetUser(tb, hash, FRESH_USER, PrintRule(AddSub(c.name, sub))).u;
    var users := TwoUsers(tb, u);
    assert !CleanSubs(u) by { assert u.subs[c.id][0] == sub; }
    assert !AllSavable(tb, users) by { assert users["u"] == u; }
    SaveLoadIff(tb, hash, users, ["default", "u"]);
  }

  lemma CommandAccepted(tb: Table, hash: string -> string, c: Command)
    requires TableOk(tb) && HashOk(hash) && c in tb.commands && Addable(c.name)
    ensures var r := SetUser(tb, hash, FRESH_USER, PrintRule(AddCommand(c.name)));
            r.Done? && UserOk(tb, r.u) && r.u.bits == {c.id}
  {
    hide ParseRule;
    hide PrintRule;
    hide UserOk;
    TableKnows(tb);
    FreshOk(tb);
    ReadableAdd(c.name);
    SetUserKeepsOk(tb, hash, FRESH_USER, PrintRule(AddCommand(c.name)));
  }

  /** The same for a command that a module registered under such a name: giving it to a user is not
      saved. */
  lemma OddNameNotRestored(tb: Table, hash: string -> string, c: Command)
    requires TableOk(tb) && HashOk(hash) && c in tb.commands && Addable(c.name) && !Clean(c.name)
    ensures var r := SetUser(tb, hash, FRESH_USER, PrintRule(AddCommand(c.name)));
            && r.Done? && tb.bits >= 1
            && LoadText(tb, hash, SaveText(tb, TwoUsers(tb, r.u), ["default", "u"])) != Some(Restored(tb, TwoUsers(tb, r.u)))
  {
    hide Addable;
    hide UserOk;
    hide Clean;
    hide CleanSubs;
    hide HasSpaces;
    hide SetUser;
    hide LoadText;
    hide SaveText;
    hide Restored;
    hide PrintRule;
    IdsInRange(tb);
    hide TableOk;
    CommandAccepted(tb, hash, c);
    DefaultUserOk(tb);
    var u := SetUser(tb, hash, FRESH_USER, PrintRule(AddCommand(c.name))).u;
    var users := TwoUsers(tb, u);
    assert !NameSaved(tb, u, c) by { assert c.id in Ids(tb.commands); }
    hide NameSaved;
    assert !AllSavable(tb, users) by { assert users["u"] == u; }
    SaveLoadIff(tb, hash, users, ["default", "u"]);
  }

  /** For instance +debug|a<newline>b, if there is a command DEBUG. */
  lemma NewlineIsLost(tb: Table, hash: string -> string, c: Command)
    requires TableOk(tb) && HashOk(hash) && c in tb.commands && c.name == "debug"
    ensures var r := SetUser(tb, hash, FRESH_USER, "+debug|a\nb");
            && r.Done? && tb.bits >= 1
            && LoadText(tb, hash, SaveText(tb, TwoUsers(tb, r.u), ["default", "u"])) != Some(Restored(tb, TwoUsers(tb, r.u)))
  {
    hide TableOk;
    hide SetUser;
    hide LoadText;
    hide SaveText;
    hide Restored;
    assert PrintRule(AddSub("debug", "a\nb")) == "+debug|a\nb";
    assert "a\nb"[1] == '\n';
    AcceptedButNotRestored(tb, hash, c, "a\nb");
  }
}
