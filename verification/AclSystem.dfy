/**
  The mutable side of the ACL: command ids, user objects, the describer's loops, and the
  commands that change the set of users (ACL SETUSER, DELUSER and LOAD).
 */
module AclSystem {
  import opened Text
  import opened AclRules
  import opened AclDescribe
  import opened AclMeaning
  import opened AclFile
  import R = Resp

  // ----- command ids --------------------------------------------------------

  /** The static variables of ACLGetCommandID; names are kept in lower case. */
  class CommandIds {
    const bits: nat
    var ids: map<string, nat>
    var nextId: nat

    /** Ids are distinct and skip the reserved one; none exceeds the number of names by more
        than that skip. */
    ghost predicate Valid()
      reads this
    {
      && bits >= 2
      && nextId == (if |ids| < bits - 1 then |ids| else |ids| + 1)
      && (forall n :: n in ids ==> ids[n] < nextId && ids[n] != bits - 1)
      && (forall n, m :: n in ids && m in ids && n != m ==> ids[n] != ids[m])
    }

    constructor (bitCount: nat)
      requires bitCount >= 2
      ensures Valid() && ids == map[] && bits == bitCount
    {
      bits, ids, nextId := bitCount, map[], 0;
    }

    /** ACLGetCommandID: the id of a name never changes, whatever its case; a new name gets an
        unused id that is not the reserved one, and the last bit is only passed over. */
    method GetCommandID(name: string) returns (id: nat)
      requires Valid()
      modifies this
      ensures Valid() && Lower(name) in ids && id == ids[Lower(name)] && id != bits - 1
      ensures Lower(name) in old(ids) ==> ids == old(ids)
      ensures Lower(name) !in old(ids) ==> ids == old(ids)[Lower(name) := id]
      ensures |ids| <= bits - 1 ==> id < bits - 1
    {
      var lowername := Lower(name);
      if lowername in ids {
        return ids[lowername];
      }
      ids := ids[lowername := nextId];
      id := nextId;
      nextId := nextId + 1;
      if nextId == bits - 1 { nextId := nextId + 1; }
    }
  }

  // ----- user objects -------------------------------------------------------

  /** The user structure; the bitmap is kept as the set of its set bits. */
  class UserCell {
    var enabled: bool
    var disabled: bool
    var allkeys: bool
    var allcommands: bool
    var nopass: bool
    var bits: set<nat>
    var subs: map<nat, seq<string>>
    var passwords: seq<string>
    var patterns: seq<string>

    ghost function Value(): User
      reads this
    {
      User(enabled, disabled, allkeys, allcommands, nopass, bits, subs, passwords, patterns)
    }

    /** ACLCreateUser; a zeroed user has no flag at all. */
    constructor (zeroed: bool)
      ensures Value() == if zeroed then ZERO else FRESH_USER
    {
      enabled, disabled, allkeys, allcommands, nopass := false, !zeroed, false, false, false;
      bits, subs, passwords, patterns := {}, map[], [], [];
    }

    /** ACLCopyUser. The source adds the subcommands again one by one; see ReaddingCopies. */
    method CopyFrom(src: UserCell)
      modifies this
      ensures Value() == old(src.Value())
    {
      passwords, patterns, bits := src.passwords, src.patterns, src.bits;
      enabled, disabled, allkeys, allcommands, nopass :=
        src.enabled, src.disabled, src.allkeys, src.allcommands, src.nopass;
      subs := src.subs;
    }

    /** ACLSetUserCommandBit */
    method SetCommandBit(tb: Table, id: nat, on: bool)
      modifies this`bits, this`allcommands
      ensures Value() == SetBit(tb, old(Value()), id, on)
    {
      if id >= tb.bits { return; }
      if on {
        bits := bits + {id};
      } else {
        bits := bits - {id};
        allcommands := false;
      }
    }

    /** ACLSetUserCommandBitsForCategory, walking over the command table. */
    method SetCommandBitsForCategory(tb: Table, category: string, on: bool)
      modifies this
      ensures Value() == SetCategory(tb, old(Value()), category, on)
    {
      hide SetBits;
      ghost var was, ids := Value(), CategoryIds(tb.commands[..0], category);
      NoCategoryIds(tb, category, was, on);
      assert tb.commands[..0] == [];
      var i := 0;
      while i < |tb.commands|
        invariant 0 <= i <= |tb.commands|
        invariant ids == CategoryIds(tb.commands[..i], category) && Value() == SetBits(tb, was, ids, on)
      {
        var cmd := tb.commands[i];
        CategoryIdsSnoc(tb.commands, i, category);
        if !cmd.isModule && category in cmd.categories {
          SetBitsOneMore(tb, was, ids, cmd.id, on);
          SetCommandBit(tb, cmd.id, on);
          subs := subs - {cmd.id};
          ids := ids + {cmd.id};
        }
        i := i + 1;
      }
      assert tb.commands[..i] == tb.commands;
    }

    /** ACLAddAllowedSubcommand */
    method AddAllowedSubcommand(id: nat, sub: string)
      modifies this`subs
      ensures Value() == AddSubcommand(old(Value()), id, sub)
    {
      hide Lower;
      var items := if id in subs then subs[id] else [];
      var i := 0;
      while i < |items|
        invariant 0 <= i <= |items|
        invariant forall k :: 0 <= k < i ==> Lower(items[k]) != Lower(sub)
      {
        if Lower(items[i]) == Lower(sub) { return; }
        i := i + 1;
      }
      subs := subs[id := items + [sub]];
    }

    /** The password rules of ACLSetUser. */
    method SetPassword(hash: string -> string, rule: Rule) returns (err: Option<Errno>)
      requires rule.AddPass? || rule.AddHash? || rule.DelPass? || rule.DelHash?
      modifies this
      ensures forall tb: Table :: Effect(tb, hash, old(Value()), rule) ==
                if err.Some? then Failed(err.value) else Done(Value())
      ensures err.Some? ==> Value() == old(Value())
    {
      if (rule.AddHash? || rule.DelHash?) && !ValidHash(rule.text) { return Some(EBADMSG); }
      var pass := if rule.AddPass? || rule.DelPass? then hash(rule.text) else rule.text;
      if rule.AddPass? || rule.AddHash? {
        if pass !in passwords { passwords := passwords + [pass]; }
        nopass := false;
        return None;
      }
      if pass !in passwords { return Some(ENODEV); }
      passwords := Remove(passwords, pass);
      return None;
    }

    /** The rules about commands and categories. */
    method SetCommands(tb: Table, hash: string -> string, rule: Rule) returns (err: Option<Errno>)
      requires rule.AddCommand? || rule.RemoveCommand? || rule.AddSub? || rule.AddCategory? || rule.RemoveCategory?
      modifies this
      ensures Effect(tb, hash, old(Value()), rule) == if err.Some? then Failed(err.value) else Done(Value())
      ensures err.Some? ==> Value() == old(Value())
    {
      if rule.AddCategory? || rule.RemoveCategory? {
        var cat := FindCategory(tb.categories, rule.name);
        if cat.None? { return Some(ENOENT); }
        SetCommandBitsForCategory(tb, cat.value, rule.AddCategory?);
        return None;
      }
      var cmd := Lookup(tb.commands, rule.name);
      if cmd.None? { return Some(ENOENT); }
      var id := cmd.value.id;
      if rule.AddSub? {
        if rule.sub == "" { return Some(EINVAL); }
        if id in bits { return Some(EBUSY); }
        AddAllowedSubcommand(id, rule.sub);
        SetCommandBit(tb, id, false);
      } else {
        SetCommandBit(tb, id, rule.AddCommand?);
        subs := subs - {id};
      }
      return None;
    }

    /** ACLSetUser */
    method Set(tb: Table, hash: string -> string, op: string) returns (err: Option<Errno>)
      modifies this
      ensures SetUser(tb, hash, old(Value()), op) == if err.Some? then Failed(err.value) else Done(Value())
      ensures err.Some? ==> Value() == old(Value())
    {
      hide ParseRule;
      err := None;
      var rule := ParseRule(op);
      match rule {
        case Nop =>
        case SwitchOn => enabled, disabled := true, false;
        case SwitchOff => enabled, disabled := false, true;
        case AllKeys => allkeys, patterns := true, [];
        case ResetKeys => allkeys, patterns := false, [];
        case AllCommands => bits, allcommands, subs := AllBits(tb), true, map[];
        case NoCommands => bits, allcommands, subs := {}, false, map[];
        case NoPass => nopass, passwords := true, [];
        case ResetPass => nopass, passwords := false, [];
        case AddPattern(text) =>
          if allkeys { return Some(EEXIST); }
          if HasSpaces(text) { return Some(EINVAL); }
          if text !in patterns { patterns := patterns + [text]; }
        case Reset =>
          nopass, passwords := false, [];
          allkeys, patterns := false, [];
          enabled, disabled := false, true;
          bits, allcommands, subs := {}, false, map[];
        case Unknown => err := Some(EINVAL);
        case AddPass(_) => err := SetPassword(hash, rule);
        case AddHash(_) => err := SetPassword(hash, rule);
        case DelPass(_) => err := SetPassword(hash, rule);
        case DelHash(_) => err := SetPassword(hash, rule);
        case AddCommand(_) => err := SetCommands(tb, hash, rule);
        case RemoveCommand(_) => err := SetCommands(tb, hash, rule);
        case AddSub(_, _) => err := SetCommands(tb, hash, rule);
        case AddCategory(_) => err := SetCommands(tb, hash, rule);
        case RemoveCategory(_) => err := SetCommands(tb, hash, rule);
      }
    }

    /** Applies rules one after the other up to the first error. */
    method SetRules(tb: Table, hash: string -> string, ops: seq<string>) returns (err: Option<Errno>)
      modifies this
      ensures SetAll(tb, hash, old(Value()), ops).Done? <==> err.None?
      ensures err.None? ==> SetAll(tb, hash, old(Value()), ops) == Done(Value())
      ensures err.Some? ==> SetAll(tb, hash, old(Value()), ops) == Failed(err.value)
    {
      hide SetUser;
      err := None;
      var j := 0;
      while j < |ops|
        invariant 0 <= j <= |ops| && err.None?
        invariant SetAll(tb, hash, Value(), ops[j..]) == SetAll(tb, hash, old(Value()), ops)
      {
        assert ops[j..][1..] == ops[j + 1..];
        err := Set(tb, hash, ops[j]);
        if err.Some? { return; }
        j := j + 1;
      }
    }
  }

  /** ACLCheckCommandPerm; without a user everything is allowed. */
  method CheckCommandPerm(u: UserCell?, glob: (string, string) -> bool, q: Request) returns (v: Verdict)
    requires KeysInside(q)
    ensures v == if u == null then AclOk else CheckPermission(u.Value(), glob, q)
  {
    if u == null { return AclOk; }
    if !u.allcommands && !q.isAuth && q.id !in u.bits {
      if |q.argv| < 2 || q.id !in u.subs { return DeniedCmd; }
      var listed := FindSubcommand(u.subs[q.id], CStr(q.argv[1]));
      if !listed { return DeniedCmd; }
    }
    if u.allkeys { return AclOk; }
    var j := 0;
    assert q.keys[0..] == q.keys;
    while j < |q.keys|
      invariant 0 <= j <= |q.keys|
      invariant FirstDenied(u.patterns, glob, q.argv, q.keys[j..]) == FirstDenied(u.patterns, glob, q.argv, q.keys)
    {
      assert q.keys[j..][1..] == q.keys[j + 1..];
      var matches := FindPattern(u.patterns, glob, q.argv[q.keys[j]]);
      if !matches { return DeniedKey(q.keys[j]); }
      j := j + 1;
    }
    return AclOk;
  }

  method FindSubcommand(subs: seq<string>, sub: string) returns (found: bool)
    ensures found <==> HasNoCase(subs, sub)
  {
    hide Lower;
    var i := 0;
    while i < |subs|
      invariant 0 <= i <= |subs| && forall k :: 0 <= k < i ==> Lower(subs[k]) != Lower(sub)
    {
      if Lower(subs[i]) == Lower(sub) { return true; }
      i := i + 1;
    }
    return false;
  }

  method FindPattern(patterns: seq<string>, glob: (string, string) -> bool, key: string) returns (found: bool)
    ensures found <==> exists i :: 0 <= i < |patterns| && glob(patterns[i], key)
  {
    var i := 0;
    while i < |patterns|
      invariant 0 <= i <= |patterns| && forall k :: 0 <= k < i ==> !glob(patterns[k], key)
    {
      if glob(patterns[i], key) { return true; }
      i := i + 1;
    }
    return false;
  }

  function Readd(u: User, id: nat, subs: seq<string>): User
    decreases |subs|
  {
    if subs == [] then u else Readd(AddSubcommand(u, id, subs[0]), id, subs[1..])
  }

  /** Adding the subcommands of a command again, one by one, copies their list. */
  lemma {:induction false} ReaddingCopies(u: User, id: nat, subs: seq<string>, k: nat)
    requires SubsOk(subs) && k <= |subs|
    requires if k == 0 then id !in u.subs else id in u.subs && u.subs[id] == subs[..k]
    ensures Readd(u, id, subs[k..]) == u.(subs := u.subs[id := subs])
    decreases |subs| - k
  {
    hide Lower;
    if k == |subs| {
      assert subs[..k] == subs && subs[k..] == [];
      assert u.subs[id := subs] == u.subs;
    } else {
      var was := if id in u.subs then u.subs[id] else [];
      assert was == subs[..k] && !HasNoCase(was, subs[k]);
      assert subs[..k] + [subs[k]] == subs[..k + 1] && subs[k..][1..] == subs[k + 1..];
      ReaddingCopies(u.(subs := u.subs[id := subs[..k + 1]]), id, subs, k + 1);
    }
  }

  lemma NoCategoryIds(tb: Table, category: string, u: User, on: bool)
    ensures CategoryIds([], category) == {}
    ensures SetBits(tb, u, {}, on) == u
  {
    assert u.subs - {} == u.subs;
  }

  lemma OneMoreInBitmap(tb: Table, ids: set<nat>, id: nat)
    ensures InBitmap(tb, ids + {id}) == InBitmap(tb, ids) + (if id < tb.bits then {id} else {})
  {
  }

  lemma SetBitsOneMore(tb: Table, u: User, ids: set<nat>, id: nat, on: bool)
    ensures DropSubs(SetBit(tb, SetBits(tb, u, ids, on), id, on), {id}) == SetBits(tb, u, ids + {id}, on)
  {
    hide InBitmap;
    var live := InBitmap(tb, ids);
    OneMoreInBitmap(tb, ids, id);
    assert u.subs - ids - {id} == u.subs - (ids + {id});
    if id >= tb.bits {
      assert live + {} == live;
    } else if on {
      assert u.bits + live + {id} == u.bits + (live + {id});
    } else {
      assert u.bits - live - {id} == u.bits - (live + {id});
    }
  }

  lemma CategoryIdsSnoc(cmds: seq<Command>, i: nat, category: string)
    requires i < |cmds|
    ensures CategoryIds(cmds[..i + 1], category) ==
            CategoryIds(cmds[..i], category) +
            (if !cmds[i].isModule && category in cmds[i].categories then {cmds[i].id} else {})
  {
    assert cmds[..i + 1] == cmds[..i] + [cmds[i]];
  }

  // ----- the describer ------------------------------------------------------

  /** ACLCountCategoryBitsForUser */
  method CountCategoryBits(tb: Table, bits: set<nat>, category: string) returns (on: nat, off: nat)
    ensures on == CountBits(tb.commands, category, bits, true)
    ensures off == CountBits(tb.commands, category, bits, false)
  {
    on, off := 0, 0;
    var i := 0;
    while i < |tb.commands|
      invariant 0 <= i <= |tb.commands|
      invariant on + CountBits(tb.commands[i..], category, bits, true) == CountBits(tb.commands, category, bits, true)
      invariant off + CountBits(tb.commands[i..], category, bits, false) == CountBits(tb.commands, category, bits, false)
    {
      assert tb.commands[i..][1..] == tb.commands[i + 1..];
      var cmd := tb.commands[i];
      if category in cmd.categories {
        if cmd.id in bits { on := on + 1; } else { off := off + 1; }
      }
      i := i + 1;
    }
  }

  lemma TokensOne(r: Rule)
    ensures Tokens([r]) == [PrintRule(r)] && Tokens([]) == []
  {
    hide PrintRule;
  }

  /** Appending the tokens of `next` moves them from what is left to what is done. */
  lemma TokensMove(done: seq<string>, next: seq<Rule>, rest: seq<Rule>)
    ensures (done + Tokens(next)) + Tokens(rest) == done + Tokens(next + rest)
  {
    TokensConcat(next, rest);
    hide Tokens;
    Assoc(done, Tokens(next), Tokens(rest));
  }

  /** What a category token does to the describer's fake user. */
  lemma FakeCategory(tb: Table, hash: string -> string, v: User, cat: string, additive: bool)
    requires TableOk(tb) && v.subs == map[] && cat in tb.categories
    ensures var rule := if additive then AddCategory(cat) else RemoveCategory(cat);
            var ids := CategoryIds(tb.commands, cat);
            var r := SetUser(tb, hash, v, PrintRule(rule));
            && r.Done? && r.u.subs == map[]
            && r.u.bits == if additive then v.bits + ids else v.bits - ids
  {
    hide ParseRule;
    hide Effect;
    hide PrintRule;
    ReadableCategory(cat);
    CategoryRuleEffect(tb, hash, v, cat, additive);
  }

  /** The categories, one after the other, applied to the fake user on the way. */
  method DescribeCategories(tb: Table, hash: string -> string, u: UserCell, additive: bool, fake: UserCell)
    returns (tokens: seq<string>)
    requires TableOk(tb) && u != fake && fake.Value().subs == map[]
    modifies fake
    ensures tokens == Tokens(CategoryRules(tb, u.Value(), tb.categories, additive))
    ensures fake.bits == CategoryBits(tb, u.Value(), tb.categories, additive, old(fake.bits))
  {
    hide SetUser;
    hide TableOk;
    hide Tokens;
    hide CategoryIds;
    hide CountBits;
    tokens := [];
    var j := 0;
    ghost var uv := u.Value();
    ghost var all := CategoryRules(tb, uv, tb.categories, additive);
    ghost var guess := CategoryBits(tb, uv, tb.categories, additive, fake.bits);
    TokensOne(Nop);
    assert tb.categories[0..] == tb.categories;
    assert [] + Tokens(all) == Tokens(all);
    while j < |tb.categories|
      invariant 0 <= j <= |tb.categories| && fake.Value().subs == map[]
      invariant tokens + Tokens(CategoryRules(tb, uv, tb.categories[j..], additive)) == Tokens(all)
      invariant CategoryBits(tb, uv, tb.categories[j..], additive, fake.bits) == guess
    {
      var cat := tb.categories[j];
      ghost var rest := CategoryRules(tb, uv, tb.categories[j + 1..], additive);
      assert tb.categories[j..][1..] == tb.categories[j + 1..];
      var on, off := CountCategoryBits(tb, u.bits, cat);
      if (additive && on > off) || (!additive && off > on) {
        ghost var rule := if additive then AddCategory(cat) else RemoveCategory(cat);
        var op := if additive then "+@" + cat else "-@" + cat;
        CategoryToken(cat, additive);
        TokensOne(rule);
        FakeCategory(tb, hash, fake.Value(), cat, additive);
        TokensMove(tokens, [rule], rest);
        var _ := fake.Set(tb, hash, op);
        tokens := tokens + [op];
      } else {
        assert [] + rest == rest;
      }
      j := j + 1;
    }
  }

  lemma CategoryToken(cat: string, additive: bool)
    ensures PrintRule(if additive then AddCategory(cat) else RemoveCategory(cat)) ==
            if additive then "+@" + cat else "-@" + cat
  {
  }

  /** The tokens of the subcommands of one command. */
  method DescribeSubs(name: string, subs: seq<string>) returns (tokens: seq<string>)
    ensures tokens == Tokens(SubRules(name, subs))
  {
    hide Tokens;
    tokens := [];
    var j := 0;
    TokensOne(Nop);
    assert subs[0..] == subs;
    assert [] + Tokens(SubRules(name, subs)) == Tokens(SubRules(name, subs));
    while j < |subs|
      invariant 0 <= j <= |subs|
      invariant tokens + Tokens(SubRules(name, subs[j..])) == Tokens(SubRules(name, subs))
    {
      assert subs[j..][1..] == subs[j + 1..];
      TokensOne(AddSub(name, subs[j]));
      TokensMove(tokens, [AddSub(name, subs[j])], SubRules(name, subs[j + 1..]));
      tokens := tokens + ["+" + name + "|" + subs[j]];
      j := j + 1;
    }
  }

  /** The final pass over the command table. */
  method DescribeRemaining(tb: Table, u: UserCell, fake: UserCell) returns (tokens: seq<string>)
    requires u != fake && forall c :: c in tb.commands ==> c.id < tb.bits
    modifies fake
    ensures tokens == Tokens(CommandRules(u.Value(), old(fake.bits), tb.commands))
    ensures fake.bits == FinalBits(u.Value(), old(fake.bits), tb.commands)
  {
    hide Tokens;
    hide RulesFor;
    hide FixBit;
    tokens := [];
    var i := 0;
    ghost var uv := u.Value();
    ghost var all := CommandRules(uv, fake.bits, tb.commands);
    ghost var final := FinalBits(uv, fake.bits, tb.commands);
    TokensOne(Nop);
    assert tb.commands[0..] == tb.commands;
    assert [] + Tokens(all) == Tokens(all);
    while i < |tb.commands|
      invariant 0 <= i <= |tb.commands|
      invariant tokens + Tokens(CommandRules(uv, fake.bits, tb.commands[i..])) == Tokens(all)
      invariant FinalBits(uv, fake.bits, tb.commands[i..]) == final
    {
      var cmd := tb.commands[i];
      assert tb.commands[i..][1..] == tb.commands[i + 1..];
      ghost var was := fake.bits;
      var mine := DescribeOne(tb, u, fake, cmd);
      TokensMove(tokens, RulesFor(uv, was, cmd), CommandRules(uv, fake.bits, tb.commands[i + 1..]));
      tokens := tokens + mine;
      i := i + 1;
    }
  }

  method DescribeOne(tb: Table, u: UserCell, fake: UserCell, cmd: Command) returns (tokens: seq<string>)
    requires u != fake && cmd.id < tb.bits
    modifies fake
    ensures tokens == Tokens(RulesFor(u.Value(), old(fake.bits), cmd))
    ensures fake.bits == FixBit(u.Value(), old(fake.bits), cmd.id)
  {
    tokens := [];
    var userbit, fakebit := cmd.id in u.bits, cmd.id in fake.bits;
    ghost var first := if userbit == fakebit then [] else if userbit then [AddCommand(cmd.name)]
                       else [RemoveCommand(cmd.name)];
    if userbit != fakebit {
      tokens := tokens + [(if userbit then "+" else "-") + cmd.name];
      fake.SetCommandBit(tb, cmd.id, userbit);
    }
    assert tokens == Tokens(first);
    if !userbit && cmd.id in u.subs {
      var subs := DescribeSubs(cmd.name, u.subs[cmd.id]);
      TokensConcat(first, SubRules(cmd.name, u.subs[cmd.id]));
      tokens := tokens + subs;
    } else {
      assert first + [] == first;
    }
  }

  /** ACLDescribeUserCommandRules: the tokens, and whether the final comparison panics. */
  method DescribeUserCommandRules(tb: Table, hash: string -> string, u: UserCell)
    returns (tokens: seq<string>, panics: bool)
    requires TableOk(tb)
    ensures tokens == Tokens(DescribeCommands(tb, u.Value()))
    ensures panics == Panics(tb, u.Value())
  {
    hide SetUser;
    hide CategoryRules;
    hide CommandRules;
    hide CategoryBits;
    hide FinalBits;
    var fake := new UserCell(true);
    ghost var uv := u.Value();
    var additive := !(tb.bits - 1 in u.bits);
    var start := if additive then "-@all" else "+@all";
    StartToken(tb, hash, uv);
    var _ := fake.Set(tb, hash, start);
    ghost var cats := CategoryRules(tb, uv, tb.categories, additive);
    ghost var cmds := CommandRules(uv, GuessBits(tb, uv), tb.commands);
    var t1 := DescribeCategories(tb, hash, u, additive, fake);
    var t2 := DescribeRemaining(tb, u, fake);
    TokensConcat([StartRule(tb, uv)] + cats, cmds);
    TokensConcat([StartRule(tb, uv)], cats);
    tokens := [start] + t1 + t2;
    panics := fake.bits != u.bits;
  }

  lemma StartToken(tb: Table, hash: string -> string, u: User)
    requires tb.bits >= 1
    ensures var t := if Additive(tb, u) then "-@all" else "+@all";
            && Tokens([StartRule(tb, u)]) == [t]
            && SetUser(tb, hash, ZERO, t) ==
               Done(ZERO.(bits := StartBits(tb, u), allcommands := Reserved(tb) in u.bits))
  {
    hide ParseRule;
    ReadableWords();
    StartEffect(tb, hash, u, ZERO);
    hide Effect;
  }

  // ----- the set of users ---------------------------------------------------

  class Client {
    var user: UserCell?
    var authenticated: bool
  }

  const DEFAULT_RULES := ["+@all", "~*", "on", "nopass"]

  lemma LoadLinesStep(tb: Table, hash: string -> string, lines: seq<string>, i: nat, acc: map<string, User>)
    requires i < |lines|
    ensures var line := Words(lines[i]);
            LoadLines(tb, hash, lines[i..], acc) ==
            if line == [] then LoadLines(tb, hash, lines[i + 1..], acc)
            else if !LineOk(tb, hash, line) then None
            else LoadLines(tb, hash, lines[i + 1..],
                           acc[line[1] := SetAll(tb, hash, FRESH_USER, Trimmed(line[2..])).u])
  {
    hide SetAll;
    hide Trimmed;
    hide Words;
    assert lines[i..][1..] == lines[i + 1..];
  }

  lemma LoadLinesEnd(tb: Table, hash: string -> string, lines: seq<string>, acc: map<string, User>)
    ensures LoadLines(tb, hash, lines[|lines|..], acc) == Some(acc)
  {
  }

  /** The fgets loop of ACLLoadFromFile. */
  method ReadAcls(text: string) returns (acls: string)
    ensures acls == ReadFile(text)
  {
    hide CStr;
    acls := "";
    var rest := text;
    while rest != ""
      invariant acls + ReadFile(rest) == ReadFile(text)
      decreases |rest|
    {
      var n := if R.Line(rest) < 1023 then R.Line(rest) else 1023;
      Assoc(acls, CStr(rest[..n]), ReadFile(rest[n..]));
      acls := acls + CStr(rest[..n]);
      rest := rest[n..];
    }
    assert acls + "" == acls;
  }

  /** The flag words of ACLDescribeUser. */
  method FlagTokens(u: UserCell) returns (tokens: seq<string>)
    ensures tokens == Tokens(FlagRules(u.Value()))
  {
    hide Tokens;
    ghost var a := if u.enabled then [SwitchOn] else [];
    ghost var b := if u.disabled then [SwitchOff] else [];
    ghost var c := if u.nopass then [NoPass] else [];
    TokensConcat(a, b);
    TokensConcat(a + b, c);
    TokensOne(SwitchOn);
    TokensOne(SwitchOff);
    TokensOne(NoPass);
    tokens := [];
    if u.enabled { tokens := tokens + ["on"]; }
    if u.disabled { tokens := tokens + ["off"]; }
    if u.nopass { tokens := tokens + ["nopass"]; }
  }

  /** Flags, passwords and patterns. */
  method RestTokens(u: UserCell) returns (tokens: seq<string>)
    ensures tokens == Tokens(DescribeRest(u.Value()))
  {
    hide FlagRules;
    hide HashRules;
    hide PatternRules;
    hide Marks;
    hide Tokens;
    tokens := FlagTokens(u);
    var hashes := MarkAll("#", u.passwords);
    HashTokens(u.passwords);
    ghost var v := u.Value();
    TokensConcat(FlagRules(v), HashRules(v.passwords));
    tokens := tokens + hashes;
    if u.allkeys {
      StarToken();
      tokens := tokens + ["~*"];
      TokensConcat(FlagRules(v) + HashRules(v.passwords), [AllKeys]);
    } else {
      var patterns := MarkAll("~", u.patterns);
      PatternTokens(u.patterns);
      tokens := tokens + patterns;
      TokensConcat(FlagRules(v) + HashRules(v.passwords), PatternRules(v.patterns));
    }
  }

  lemma StarToken()
    ensures Tokens([AllKeys]) == ["~*"]
  {
  }

  /** The tokens of ACLDescribeUser: flags, passwords, patterns, then the command rules. */
  method DescribeUser(tb: Table, hash: string -> string, u: UserCell) returns (tokens: seq<string>, panics: bool)
    requires TableOk(tb)
    ensures tokens == Tokens(Describe(tb, u.Value())) && tokens != [] && panics == Panics(tb, u.Value())
  {
    hide Panics;
    hide DescribeRest;
    hide CategoryRules;
    hide CommandRules;
    hide UserCell.Value;
    hide TableOk;
    IdsInRange(tb);
    tokens := RestTokens(u);
    var rules, p := DescribeUserCommandRules(tb, hash, u);
    panics := p;
    tokens := tokens + rules;
    TokensConcat(DescribeRest(u.Value()), DescribeCommands(tb, u.Value()));
  }

  function Marks(mark: string, words: seq<string>): seq<string> {
    if words == [] then [] else [mark + words[0]] + Marks(mark, words[1..])
  }

  method MarkAll(mark: string, words: seq<string>) returns (tokens: seq<string>)
    ensures tokens == Marks(mark, words)
  {
    tokens := [];
    assert words[0..] == words && [] + Marks(mark, words) == Marks(mark, words);
    for i := 0 to |words|
      invariant tokens + Marks(mark, words[i..]) == Marks(mark, words)
    {
      assert words[i..][1..] == words[i + 1..];
      tokens := tokens + [mark + words[i]];
    }
    assert tokens + [] == tokens;
  }

  lemma {:induction false} HashTokens(hs: seq<string>)
    ensures Marks("#", hs) == Tokens(HashRules(hs))
  {
    if hs != [] {
      HashTokens(hs[1..]);
    }
  }

  lemma {:induction false} PatternTokens(ps: seq<string>)
    ensures Marks("~", ps) == Tokens(PatternRules(ps))
  {
    if ps != [] {
      PatternTokens(ps[1..]);
    }
  }

  lemma TokensConcat(a: seq<Rule>, b: seq<Rule>)
    ensures Tokens(a + b) == Tokens(a) + Tokens(b)
  {
    hide PrintRule;
  }

  lemma DefaultRulesEffect(tb: Table, hash: string -> string)
    ensures SetAll(tb, hash, FRESH_USER, DEFAULT_RULES) == Done(DefaultUser(tb))
  {
    hide ParseRule;
    ReadableWords();
    var rules := [AllCommands, AllKeys, SwitchOn, NoPass];
    assert Tokens(rules) == DEFAULT_RULES;
    ReadableTokens(tb, hash, FRESH_USER, rules);
    assert rules[1..] == [AllKeys, SwitchOn, NoPass] && rules[1..][1..] == [SwitchOn, NoPass] &&
           rules[1..][1..][1..] == [NoPass];
    EffectOne(tb, hash, DefaultUser(tb).(nopass := false), NoPass);
  }

  lemma ResetIsFresh(tb: Table, hash: string -> string, u: User)
    ensures SetUser(tb, hash, u, "reset") == Done(FRESH_USER)
  {
    ParseReset();
    hide ParseRule;
  }

  lemma ParseReset()
    ensures ParseRule("reset") == Reset
  {
    hide Lower;
    hide Keyword;
    LowerIsSame("reset");
    CStrWhole("reset");
    NoKeywordReset();
  }

  lemma NoKeywordReset()
    ensures Keyword("reset") == None
  {
  }

  ghost function ValuesOf(m: map<string, UserCell>): map<string, User>
    reads m.Values
  {
    map n | n in m :: m[n].Value()
  }

  predicate Distinct(m: map<string, UserCell>) {
    forall a, b :: a in m && b in m && a != b ==> m[a] != m[b]
  }

  /** u is nobody or one of the users. */
  predicate HasUser(m: map<string, UserCell>, u: UserCell?) {
    u == null || exists n :: n in m && m[n] == u
  }

  lemma RemoveKeeps(m: map<string, UserCell>, name: string, u: UserCell?)
    requires name in m && HasUser(m, u) && u != m[name]
    ensures HasUser(m - {name}, u)
  {
    if u != null {
      var n :| n in m && m[n] == u;
      assert n in m - {name} && (m - {name})[n] == u;
    }
  }

  lemma RemovedIff(m: map<string, UserCell>, name: string, u: UserCell?)
    requires name in m && Distinct(m)
    ensures HasUser(m - {name}, u) <==> HasUser(m, u) && u != m[name]
  {
    if HasUser(m, u) && u != m[name] {
      RemoveKeeps(m, name, u);
    }
  }

  lemma HasDefault(m: map<string, UserCell>)
    requires "default" in m
    ensures HasUser(m, m["default"])
  {
  }

  lemma AddKeeps(m: map<string, UserCell>, name: string, v: UserCell, u: UserCell?)
    requires name !in m && HasUser(m, u)
    ensures HasUser(m[name := v], u)
  {
    if u != null {
      var n :| n in m && m[n] == u;
      assert n in m[name := v] && m[name := v][n] == u;
    }
  }

  function SetOf(names: seq<string>): set<string> {
    set n | n in names
  }

  /** strcmp against "default", which sees a name up to its first NUL. */
  predicate NamesDefault(names: seq<string>) {
    exists i :: 0 <= i < |names| && CStr(names[i]) == "default"
  }

  /** The first loop of ACL DELUSER. */
  method FindDefault(names: seq<string>) returns (found: bool)
    ensures found <==> NamesDefault(names)
    ensures !found ==> "default" !in names
  {
    var j := 0;
    while j < |names|
      invariant 0 <= j <= |names| && forall i :: 0 <= i < j ==> CStr(names[i]) != "default"
    {
      if CStr(names[j]) == "default" { return true; }
      j := j + 1;
    }
    CStrWhole("default");
    return false;
  }

  lemma SetOfNone(names: seq<string>)
    ensures SetOf(names[..0]) == {}
  {
  }

  lemma SetOfSnoc(names: seq<string>, j: nat)
    requires j < |names|
    ensures SetOf(names[..j + 1]) == SetOf(names[..j]) + {names[j]}
  {
    assert names[..j + 1] == names[..j] + [names[j]];
  }

  lemma LineText(name: string, tokens: seq<string>)
    requires tokens != []
    ensures "user " + name + " " + Join(tokens, ' ') == Join(["user", name] + tokens, ' ')
  {
    var parts := ["user", name] + tokens;
    assert parts[1..] == [name] + tokens && parts[1..][1..] == tokens;
  }

  class AclServer {
    var users: map<string, UserCell>
    var defaultUser: UserCell
    var clients: seq<Client>

    ghost predicate Valid()
      reads this, clients
    {
      && "default" in users && users["default"] == defaultUser
      && Distinct(users)
      && (forall i :: 0 <= i < |clients| ==> HasUser(users, clients[i].user))
    }

    /** ACLInit */
    constructor (tb: Table, hash: string -> string)
      ensures Valid() && fresh(defaultUser) && clients == []
      ensures ValuesOf(users) == map["default" := DefaultUser(tb)]
    {
      hide SetAll;
      hide DefaultUser;
      var u := new UserCell(false);
      DefaultRulesEffect(tb, hash);
      var _ := u.SetRules(tb, hash, DEFAULT_RULES);
      defaultUser, users, clients := u, map["default" := u], [];
    }

    /** ACLCheckUserCredentials; None is C_OK. */
    method CheckUserCredentials(hash: string -> string, username: string, password: string) returns (err: Option<Errno>)
      requires Valid()
      ensures username !in users ==> err == Some(ENOENT)
      ensures username in users ==> err == if CanLogin(users[username].Value(), hash, password) then None else Some(EINVAL)
    {
      if username !in users { return Some(ENOENT); }
      var u := users[username];
      if u.disabled { return Some(EINVAL); }
      if u.nopass { return None; }
      var hashed, i := hash(password), 0;
      while i < |u.passwords|
        invariant 0 <= i <= |u.passwords| && forall k :: 0 <= k < i ==> u.passwords[k] != hashed
      {
        if u.passwords[i] == hashed { return None; }
        i := i + 1;
      }
      return Some(EINVAL);
    }

    /** ACLAuthenticateUser */
    method AuthenticateUser(c: Client, hash: string -> string, username: string, password: string) returns (ok: bool)
      requires Valid() && c in clients
      modifies c
      ensures Valid()
      ensures ok <==> username in users && CanLogin(users[username].Value(), hash, password)
      ensures ok ==> c.authenticated && c.user == users[username]
      ensures !ok ==> c.authenticated == old(c.authenticated) && c.user == old(c.user)
    {
      hide CanLogin;
      var err := CheckUserCredentials(hash, username, password);
      ok := err.None?;
      if ok {
        c.authenticated := true;
        c.user := users[username];
      }
    }

    /** The client loop of ACLFreeUserAndKillClients. */
    method KillClients(u: UserCell)
      modifies clients
      ensures forall i :: 0 <= i < |clients| ==>
                clients[i].user == (if old(clients[i].user) == u then defaultUser else old(clients[i].user))
                && clients[i].authenticated == (old(clients[i].authenticated) && old(clients[i].user) != u)
    {
      var i := 0;
      while i < |clients|
        invariant 0 <= i <= |clients|
        invariant forall k :: 0 <= k < |clients| ==>
                    (clients[k].user == old(clients[k].user) && clients[k].authenticated == old(clients[k].authenticated)) ||
                    (old(clients[k].user) == u && clients[k].user == defaultUser && !clients[k].authenticated)
        invariant forall k :: 0 <= k < i && old(clients[k].user) == u ==>
                    clients[k].user == defaultUser && !clients[k].authenticated
      {
        if clients[i].user == u {
          clients[i].user := defaultUser;
          clients[i].authenticated := false;
        }
        i := i + 1;
      }
    }

    /** The client of a user that is gone has the default user and has to authenticate again. */
    ghost predicate ClientFollows(c: Client, was: UserCell?, wasAuthenticated: bool)
      reads this, c
    {
      && c.user == (if HasUser(users, was) then was else defaultUser)
      && c.authenticated == (wasAuthenticated && HasUser(users, was))
    }

    ghost predicate AllFollow(was: seq<UserCell?>, auth: seq<bool>)
      reads this, clients
    {
      && |was| == |auth| == |clients|
      && forall i :: 0 <= i < |clients| ==> ClientFollows(clients[i], was[i], auth[i])
    }

    /** ACL DELUSER: refused as a whole when "default" is among the names as C strings. */
    method DelUser(names: seq<string>) returns (deleted: int)
      requires Valid()
      modifies this`users, clients
      ensures Valid()
      ensures NamesDefault(names) ==> deleted == -1 && users == old(users)
      ensures !NamesDefault(names) ==> users == old(users) - SetOf(names) && deleted == |old(users)| - |users|
      ensures forall i :: 0 <= i < |clients| ==>
                ClientFollows(clients[i], old(clients[i].user), old(clients[i].authenticated))
    {
      hide NamesDefault;
      hide SetOf;
      hide HasUser;
      hide Distinct;
      var refused := FindDefault(names);
      if refused {
        deleted := -1;
      } else {
        deleted := RemoveUsers(names);
      }
    }

    /** The second loop of ACL DELUSER. */
    method RemoveUsers(names: seq<string>) returns (deleted: int)
      requires Valid() && "default" !in names
      modifies this`users, clients
      ensures Valid() && users == old(users) - SetOf(names) && deleted == |old(users)| - |users|
      ensures forall i :: 0 <= i < |clients| ==>
                ClientFollows(clients[i], old(clients[i].user), old(clients[i].authenticated))
    {
      hide SetOf;
      hide HasUser;
      hide Distinct;
      deleted := 0;
      var j := 0;
      ghost var was := seq(|clients|, i requires 0 <= i < |clients| reads this, clients => clients[i].user);
      ghost var auth := seq(|clients|, i requires 0 <= i < |clients| reads this, clients => clients[i].authenticated);
      SetOfNone(names);
      while j < |names|
        invariant 0 <= j <= |names| && Valid() && AllFollow(was, auth)
        invariant users == old(users) - SetOf(names[..j]) && deleted == |old(users)| - |users|
      {
        SetOfSnoc(names, j);
        if names[j] in users {
          RemoveUser(names[j], was, auth);
          deleted := deleted + 1;
        }
        j := j + 1;
      }
      assert names[..j] == names;
    }

    /** raxRemove and ACLFreeUserAndKillClients for one user. */
    method RemoveUser(name: string, ghost was: seq<UserCell?>, ghost auth: seq<bool>)
      requires Valid() && name in users && name != "default" && AllFollow(was, auth)
      modifies this`users, clients
      ensures Valid() && users == old(users) - {name} && |users| == |old(users)| - 1 && AllFollow(was, auth)
    {
      hide HasUser;
      var u := users[name];
      ghost var before := users;
      users := users - {name};
      assert users.Keys == before.Keys - {name};
      KillClients(u);
      forall o: UserCell? ensures HasUser(users, o) <==> HasUser(before, o) && o != u {
        RemovedIff(before, name, o);
      }
      HasDefault(users);
    }

    /** ACL SETUSER: all rules succeed and are applied together, or nothing changes. */
    method SetUserCommand(tb: Table, hash: string -> string, name: string, ops: seq<string>) returns (err: Option<Errno>)
      requires Valid()
      modifies this`users, users.Values
      ensures Valid()
      ensures var was := if name in old(users) then old(users[name].Value()) else FRESH_USER;
              var r := SetAll(tb, hash, was, ops);
              && (HasSpaces(name) ==> err == Some(EINVAL))
              && (!HasSpaces(name) ==> (err.None? <==> r.Done?) && (err.Some? ==> r == Failed(err.value)))
              && (err.None? ==> name in users && users[name].Value() == r.u && users.Keys == old(users).Keys + {name})
              && (err.Some? ==> users == old(users) && forall n :: n in users ==> users[n].Value() == old(users[n].Value()))
      ensures forall n :: n in old(users) && n != name ==>
                n in users && users[n] == old(users)[n] && users[n].Value() == old(users[n].Value())
    {
      hide UserCell.Value;
      hide SetAll;
      if HasSpaces(name) { return Some(EINVAL); }
      var tempu := new UserCell(false);
      if name in users { tempu.CopyFrom(users[name]); }
      err := tempu.SetRules(tb, hash, ops);
      if err.Some? { return; }
      if name !in users {
        var u := new UserCell(false);
        forall i | 0 <= i < |clients| ensures HasUser(users[name := u], clients[i].user) {
          AddKeeps(users, name, u, clients[i].user);
        }
        users := users[name := u];
      }
      users[name].CopyFrom(tempu);
    }

    /** One line of ACLLoadFromFile: the rules are tried on the fake user first, all of them even
        after an error, and only then on the user of the new set. The assertion that they
        succeed there too always holds. */
    method LoadLine(tb: Table, hash: string -> string, line: seq<string>, fake: UserCell, errors: bool)
      returns (bad: bool)
      requires line != [] && Distinct(users) && (forall n :: n in users ==> users[n] != fake)
      modifies this`users, fake, users.Values
      ensures bad <==> !LineOk(tb, hash, line)
      ensures Distinct(users) && (forall n :: n in users ==> users[n] != fake)
      ensures forall n :: n in users ==> (n in old(users) && users[n] == old(users)[n]) || fresh(users[n])
      ensures old(users).Keys <= users.Keys
      ensures bad || errors ==> users == old(users) && ValuesOf(users) == old(ValuesOf(users))
      ensures !bad && !errors ==>
                ValuesOf(users) ==
                old(ValuesOf(users))[line[1] := SetAll(tb, hash, FRESH_USER, Trimmed(line[2..])).u]
    {
      hide UserCell.Value;
      hide SetAll;
      hide SetUser;
      hide Trimmed;
      if line[0] != "user" || |line| < 2 || HasSpaces(line[1]) { return true; }
      var ops := Trimmed(line[2..]);
      ResetIsFresh(tb, hash, fake.Value());
      var _ := fake.Set(tb, hash, "reset");
      bad := TryRules(tb, hash, ops, fake);
      if bad || errors { return; }
      Replay(tb, hash, line[1], ops);
    }

    /** The rules that went well on the fake user, applied to the user of the new set. */
    method Replay(tb: Table, hash: string -> string, name: string, ops: seq<string>)
      requires Distinct(users) && SetAll(tb, hash, FRESH_USER, ops).Done?
      modifies this`users, users.Values
      ensures Distinct(users)
      ensures forall n :: n in users ==> (n in old(users) && users[n] == old(users)[n]) || fresh(users[n])
      ensures old(users).Keys <= users.Keys
      ensures ValuesOf(users) == old(ValuesOf(users))[name := SetAll(tb, hash, FRESH_USER, ops).u]
    {
      hide UserCell.Value;
      hide SetAll;
      hide SetUser;
      if name !in users {
        var u := new UserCell(false);
        users := users[name := u];
      } else {
        ResetIsFresh(tb, hash, users[name].Value());
        var _ := users[name].Set(tb, hash, "reset");
      }
      var err := users[name].SetRules(tb, hash, ops);
      assert err.None?;
    }

    /** The validation loop: goes on after an error. */
    method TryRules(tb: Table, hash: string -> string, ops: seq<string>, fake: UserCell) returns (bad: bool)
      modifies fake
      ensures bad <==> SetAll(tb, hash, old(fake.Value()), ops).Failed?
    {
      hide UserCell.Value;
      hide SetUser;
      bad := false;
      var j := 0;
      while j < |ops|
        invariant 0 <= j <= |ops|
        invariant bad ==> SetAll(tb, hash, old(fake.Value()), ops).Failed?
        invariant !bad ==> SetAll(tb, hash, fake.Value(), ops[j..]) == SetAll(tb, hash, old(fake.Value()), ops)
      {
        assert ops[j..][1..] == ops[j + 1..];
        var err := fake.Set(tb, hash, ops[j]);
        if err.Some? { bad := true; }
        j := j + 1;
      }
    }

    /** ACL LOAD is all or nothing: with a single bad line the users, their rules and the clients
        stay exactly as they were; otherwise the users are those of the file. The default user
        object stays the same, and no client is left with a user that is gone. */
    method LoadFromFile(tb: Table, hash: string -> string, text: string) returns (ok: bool)
      requires Valid()
      modifies this`users, this`defaultUser, defaultUser, clients
      ensures Valid() && defaultUser == old(defaultUser)
      ensures var want := LoadText(tb, hash, text);
              (ok <==> want.Some?) && (ok ==> ValuesOf(users) == want.value)
      ensures !ok ==> users == old(users) && ValuesOf(users) == old(ValuesOf(users))
      ensures !ok ==> forall i :: 0 <= i < |clients| ==>
                clients[i].user == old(clients[i].user) && clients[i].authenticated == old(clients[i].authenticated)
      ensures ok ==> forall i :: 0 <= i < |clients| ==>
                Released(clients[i], old(clients[i].user), old(clients[i].authenticated))
    {
      hide UserCell.Value;
      hide LoadLines;
      hide Split;
      hide ReadFile;
      var oldUsers, oldDefaultUser := users, defaultUser;
      var acls := ReadAcls(text);
      var errors := BuildUsers(tb, hash, Split(acls, '\n'));
      defaultUser := oldDefaultUser;
      if errors {
        users := oldUsers;
        return false;
      }
      AdoptUsers();
      ReleaseOld(oldUsers);
      ok := true;
    }

    /** ACLSaveToFile: the text written, in the order in which the users are walked; panicked when
        the describer did. */
    method SaveToFile(tb: Table, hash: string -> string, order: seq<string>) returns (acl: string, panicked: bool)
      requires TableOk(tb) && forall i :: 0 <= i < |order| ==> order[i] in users
      ensures panicked <==> exists i :: 0 <= i < |order| && Panics(tb, users[order[i]].Value())
      ensures !panicked ==> acl == SaveText(tb, ValuesOf(users), order)
    {
      hide UserCell.Value;
      hide TableOk;
      hide Panics;
      hide Describe;
      hide Tokens;
      hide Join;
      IdsInRange(tb);
      acl := "";
      ghost var all := SaveText(tb, ValuesOf(users), order);
      assert order[0..] == order && "" + all == all;
      var i := 0;
      while i < |order|
        invariant 0 <= i <= |order| && forall k :: 0 <= k < i ==> !Panics(tb, users[order[k]].Value())
        invariant acl + SaveText(tb, ValuesOf(users), order[i..]) == all
      {
        var tokens, panics := DescribeUser(tb, hash, users[order[i]]);
        if panics { return "", true; }
        var descr := Join(tokens, ' ');
        var line := "user " + order[i] + " " + descr;
        LineText(order[i], tokens);
        assert order[i..][1..] == order[i + 1..];
        Assoc(acl, line + "\n", SaveText(tb, ValuesOf(users), order[i + 1..]));
        acl := acl + (line + "\n");
        i := i + 1;
      }
      assert acl + "" == acl;
      panicked := false;
    }

    /** The lines are loaded into a new set of users with a new default user. */
    method BuildUsers(tb: Table, hash: string -> string, lines: seq<string>) returns (errors: bool)
      modifies this`users, this`defaultUser
      ensures "default" in users && Distinct(users) && (forall n :: n in users ==> fresh(users[n]))
      ensures var want := LoadLines(tb, hash, lines, map["default" := DefaultUser(tb)]);
              (errors <==> want.None?) && (!errors ==> ValuesOf(users) == want.value)
    {
      hide DefaultUser;
      hide UserCell.Value;
      hide LoadLines;
      hide LineOk;
      hide SetAll;
      hide Words;
      var fake := new UserCell(false);
      InitDefaultUser(tb, hash);
      ghost var want := LoadLines(tb, hash, lines, map["default" := DefaultUser(tb)]);
      errors := false;
      var i := 0;
      assert lines[0..] == lines;
      while i < |lines|
        invariant 0 <= i <= |lines| && Distinct(users) && "default" in users
        invariant fresh(fake) && (forall n :: n in users ==> users[n] != fake && fresh(users[n]))
        invariant errors ==> want.None?
        invariant !errors ==> LoadLines(tb, hash, lines[i..], ValuesOf(users)) == want
      {
        LoadLinesStep(tb, hash, lines, i, ValuesOf(users));
        var line := Words(lines[i]);
        if line != [] {
          var bad := LoadLine(tb, hash, line, fake, errors);
          errors := errors || bad;
        }
        i := i + 1;
      }
      LoadLinesEnd(tb, hash, lines, ValuesOf(users));
    }

    /** ACLInitDefaultUser in an empty set of users. */
    method InitDefaultUser(tb: Table, hash: string -> string)
      modifies this`users, this`defaultUser
      ensures "default" in users && Distinct(users) && (forall n :: n in users ==> fresh(users[n]))
      ensures ValuesOf(users) == map["default" := DefaultUser(tb)]
    {
      hide SetAll;
      defaultUser := new UserCell(false);
      DefaultRulesEffect(tb, hash);
      var _ := defaultUser.SetRules(tb, hash, DEFAULT_RULES);
      users := map["default" := defaultUser];
    }

    /** The new default user's rules are copied into the old object, which then takes its place. */
    method AdoptUsers()
      requires "default" in users && Distinct(users) && (forall n :: n in users ==> users[n] != defaultUser)
      modifies this`users, defaultUser
      ensures "default" in users && users["default"] == defaultUser && Distinct(users)
      ensures ValuesOf(users) == old(ValuesOf(users))
    {
      hide UserCell.Value;
      defaultUser.CopyFrom(users["default"]);
      users := users["default" := defaultUser];
    }

    /** ACLFreeUsersSet on the old users without "default": their clients get the default user. */
    method ReleaseOld(oldUsers: map<string, UserCell>)
      requires "default" in oldUsers && oldUsers["default"] == defaultUser && Distinct(oldUsers)
      requires forall i :: 0 <= i < |clients| ==> HasUser(oldUsers, clients[i].user)
      modifies clients
      ensures forall i :: 0 <= i < |clients| ==>
                Released(clients[i], old(clients[i].user), old(clients[i].authenticated))
    {
      var names := oldUsers.Keys - {"default"};
      while names != {}
        invariant names <= oldUsers.Keys - {"default"}
        invariant forall i :: 0 <= i < |clients| ==>
                    || Released(clients[i], old(clients[i].user), old(clients[i].authenticated))
                    || (clients[i].user == old(clients[i].user) && clients[i].authenticated == old(clients[i].authenticated)
                        && exists n :: n in names && clients[i].user == oldUsers[n])
        decreases names
      {
        var name :| name in names;
        KillClients(oldUsers[name]);
        names := names - {name};
      }
    }

    /** A client that had a user other than the default one gets the default user and has to
        authenticate again; the others are left alone. */
    ghost predicate Released(c: Client, was: UserCell?, wasAuthenticated: bool)
      reads this, c
    {
      && c.user == (if was == null then null else defaultUser)
      && c.authenticated == (wasAuthenticated && (was == null || was == defaultUser))
    }
  }
}
