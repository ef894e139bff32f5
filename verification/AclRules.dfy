/**
  ACL rules: the textual rules of ACLSetUser, what they do to a user, and the invariant that
  all users keep. SHA-256 is a function parameter.
 */
module AclRules {
  import opened Text

  // ----- command table ------------------------------------------------------

  datatype Command = Command(name: string, id: nat, categories: set<string>, isModule: bool)

  /** server.orig_commands in some iteration order, the category names, and the size of the
      command bitmap (USER_COMMAND_BITS_COUNT). The last bit is reserved. */
  datatype Table = Table(commands: seq<Command>, categories: seq<string>, bits: nat)

  /** Names that a rule -name can mean. */
  predicate Removable(s: string) {
    '\0' !in s && (s != "" ==> s[0] != '@')
  }

  /** Names that a rule +name or +name|sub can mean. */
  predicate Addable(s: string) {
    Removable(s) && '|' !in s
  }

  /** ACLStringHasSpaces */
  predicate HasSpaces(s: string) {
    exists i :: 0 <= i < |s| && (IsSpace(s[i]) || s[i] == '\0')
  }

  /** A module may register any C string; the names of the other commands are plain words. */
  predicate NameOk(c: Command) {
    '\0' !in c.name && (c.isModule || (Addable(c.name) && !HasSpaces(c.name)))
  }

  predicate CategoryName(s: string) {
    s != "" && !HasSpaces(s) && s == Lower(s) && s != "all"
  }

  predicate TableOk(tb: Table) {
    && tb.bits >= 1
    && (forall i :: 0 <= i < |tb.commands| ==> NameOk(tb.commands[i]) && tb.commands[i].id < tb.bits - 1)
    && (forall i, k :: 0 <= i < k < |tb.commands| ==>
          tb.commands[i].id != tb.commands[k].id && Lower(tb.commands[i].name) != Lower(tb.commands[k].name))
    && (forall c :: c in tb.categories ==> CategoryName(c))
  }

  function Ids(cmds: seq<Command>): set<nat> {
    set c | c in cmds :: c.id
  }

  function Reserved(tb: Table): nat
    requires tb.bits >= 1
  {
    tb.bits - 1
  }

  function UpTo(n: nat): (r: set<nat>)
    ensures forall i: nat :: i in r <==> i < n
  {
    if n == 0 then {} else UpTo(n - 1) + {n - 1}
  }

  function AllBits(tb: Table): set<nat> {
    UpTo(tb.bits)
  }

  /** ACLLookupCommand: the table ignores case. */
  function Lookup(cmds: seq<Command>, name: string): (r: Option<Command>)
    ensures r.Some? ==> r.value in cmds && Lower(r.value.name) == Lower(name)
  {
    if cmds == [] then None
    else if Lower(cmds[0].name) == Lower(name) then Some(cmds[0])
    else Lookup(cmds[1..], name)
  }

  lemma {:induction false} LookupFinds(cmds: seq<Command>, i: nat)
    requires i < |cmds|
    requires forall a, b :: 0 <= a < b < |cmds| ==> Lower(cmds[a].name) != Lower(cmds[b].name)
    ensures Lookup(cmds, cmds[i].name) == Some(cmds[i])
  {
    if i == 0 {
    } else {
      LookupFinds(cmds[1..], i - 1);
    }
  }

  // ----- users --------------------------------------------------------------

  /** bits is the set of set bits; subs holds the allowed subcommands of a command id. */
  datatype User = User(
    enabled: bool, disabled: bool, allkeys: bool, allcommands: bool, nopass: bool,
    bits: set<nat>, subs: map<nat, seq<string>>, passwords: seq<string>, patterns: seq<string>)

  /** The zeroed structure of the describer, and the state right after ACLCreateUser. */
  const ZERO := User(false, false, false, false, false, {}, map[], [], [])
  const FRESH_USER := ZERO.(disabled := true)

  // ----- rules --------------------------------------------------------------

  datatype Rule =
    | Nop | SwitchOn | SwitchOff | AllKeys | ResetKeys | AllCommands | NoCommands | NoPass | ResetPass
    | AddPass(text: string) | AddHash(text: string) | DelPass(text: string) | DelHash(text: string)
    | AddPattern(text: string)
    | AddCommand(name: string) | AddSub(name: string, sub: string) | RemoveCommand(name: string)
    | AddCategory(name: string) | RemoveCategory(name: string)
    | Reset | Unknown

  /** The rules that are whole words (or ~*, +@all, -@all), compared without case. */
  function Keyword(low: string): Option<Rule> {
    if low == "on" then Some(SwitchOn)
    else if low == "off" then Some(SwitchOff)
    else if low == "allkeys" || low == "~*" then Some(AllKeys)
    else if low == "resetkeys" then Some(ResetKeys)
    else if low == "allcommands" || low == "+@all" then Some(AllCommands)
    else if low == "nocommands" || low == "-@all" then Some(NoCommands)
    else if low == "nopass" then Some(NoPass)
    else if low == "resetpass" then Some(ResetPass)
    else None
  }

  /** Rules recognised by their first characters; c is what C sees of op. */
  function ParseMarked(op: string, c: string): Rule
    requires op != "" && c <= op
  {
    if op[0] == '>' then AddPass(op[1..])
    else if op[0] == '#' then AddHash(op[1..])
    else if op[0] == '<' then DelPass(op[1..])
    else if op[0] == '!' then DelHash(op[1..])
    else if op[0] == '~' then AddPattern(op[1..])
    else if c == "" then Unknown
    else if c[0] == '+' && (|c| == 1 || c[1] != '@') then
      var k := Find(c, '|');
      if k == |c| then AddCommand(c[1..]) else AddSub(c[1..k], c[k + 1..])
    else if c[0] == '-' && (|c| == 1 || c[1] != '@') then RemoveCommand(c[1..])
    else if c[0] == '+' then AddCategory(c[2..])
    else if c[0] == '-' then RemoveCategory(c[2..])
    else if Lower(c) == "reset" then Reset
    else Unknown
  }

  /** The case analysis of ACLSetUser on its text. */
  function ParseRule(op: string): Rule {
    var c := CStr(op);
    var word := Keyword(Lower(c));
    if op == "" then Nop else if word.Some? then word.value else ParseMarked(op, c)
  }

  /** The token for a rule, as the describer prints it. */
  function PrintRule(r: Rule): string {
    match r
    case SwitchOn => "on"
    case SwitchOff => "off"
    case NoPass => "nopass"
    case AllKeys => "~*"
    case AllCommands => "+@all"
    case NoCommands => "-@all"
    case AddHash(h) => "#" + h
    case AddPattern(p) => "~" + p
    case AddCommand(n) => "+" + n
    case RemoveCommand(n) => "-" + n
    case AddSub(n, s) => "+" + n + "|" + s
    case AddCategory(c) => "+@" + c
    case RemoveCategory(c) => "-@" + c
    case _ => ""
  }

  // ----- effect of a rule ---------------------------------------------------

  datatype Errno = EINVAL | ENOENT | EBUSY | EEXIST | ENODEV | EBADMSG

  datatype Result = Done(u: User) | Failed(errno: Errno)

  predicate IsHexDigit(c: char) {
    'a' <= c <= 'f' || '0' <= c <= '9'
  }

  /** ACLCheckPasswordHash */
  predicate ValidHash(h: string) {
    |h| == 64 && forall i :: 0 <= i < |h| ==> IsHexDigit(h[i])
  }

  function AddNew(xs: seq<string>, x: string): seq<string> {
    if x in xs then xs else xs + [x]
  }

  function Remove(xs: seq<string>, x: string): seq<string> {
    if xs == [] then [] else if xs[0] == x then xs[1..] else [xs[0]] + Remove(xs[1..], x)
  }

  predicate HasNoCase(xs: seq<string>, x: string) {
    exists i :: 0 <= i < |xs| && Lower(xs[i]) == Lower(x)
  }

  /** ACLSetUserCommandBit: an id past the bitmap is ignored. */
  function SetBit(tb: Table, u: User, id: nat, on: bool): User {
    if id >= tb.bits then u
    else if on then u.(bits := u.bits + {id})
    else u.(bits := u.bits - {id}, allcommands := false)
  }

  function DropSubs(u: User, ids: set<nat>): User {
    u.(subs := u.subs - ids)
  }

  /** ACLAddAllowedSubcommand */
  function AddSubcommand(u: User, id: nat, sub: string): User {
    var xs := if id in u.subs then u.subs[id] else [];
    if HasNoCase(xs, sub) then u else u.(subs := u.subs[id := xs + [sub]])
  }

  /** Ids of the commands that a category rule touches: modules are skipped. */
  function CategoryIds(cmds: seq<Command>, cat: string): set<nat> {
    set c | c in cmds && !c.isModule && cat in c.categories :: c.id
  }

  /** The ids that the bitmap has room for. */
  function InBitmap(tb: Table, ids: set<nat>): set<nat> {
    set id | id in ids && id < tb.bits
  }

  /** All bits of ids set or cleared, their subcommands dropped. */
  function SetBits(tb: Table, u: User, ids: set<nat>, on: bool): User {
    var u1, live := DropSubs(u, ids), InBitmap(tb, ids);
    if on then u1.(bits := u1.bits + live)
    else u1.(bits := u1.bits - live, allcommands := u1.allcommands && live == {})
  }

  /** ACLSetUserCommandBitsForCategory for a known category. */
  function SetCategory(tb: Table, u: User, cat: string, on: bool): User {
    SetBits(tb, u, CategoryIds(tb.commands, cat), on)
  }

  function FindCategory(cats: seq<string>, name: string): (r: Option<string>)
    ensures r.Some? ==> r.value in cats && r.value == Lower(name)
  {
    if cats == [] then None else if cats[0] == Lower(name) then Some(cats[0]) else FindCategory(cats[1..], name)
  }

  function ResetUser(u: User): User {
    u.(nopass := false, passwords := [], allkeys := false, patterns := [], disabled := true, enabled := false,
       bits := {}, allcommands := false, subs := map[])
  }

  /** What a parsed rule does; a failing rule leaves the user alone. */
  function Effect(tb: Table, hash: string -> string, u: User, r: Rule): Result {
    match r
    case Nop => Done(u)
    case SwitchOn => Done(u.(enabled := true, disabled := false))
    case SwitchOff => Done(u.(enabled := false, disabled := true))
    case AllKeys => Done(u.(allkeys := true, patterns := []))
    case ResetKeys => Done(u.(allkeys := false, patterns := []))
    case AllCommands => Done(u.(bits := AllBits(tb), allcommands := true, subs := map[]))
    case NoCommands => Done(u.(bits := {}, allcommands := false, subs := map[]))
    case NoPass => Done(u.(nopass := true, passwords := []))
    case ResetPass => Done(u.(nopass := false, passwords := []))
    case AddPass(t) => Done(u.(passwords := AddNew(u.passwords, hash(t)), nopass := false))
    case AddHash(t) =>
      if !ValidHash(t) then Failed(EBADMSG) else Done(u.(passwords := AddNew(u.passwords, t), nopass := false))
    case DelPass(t) =>
      if hash(t) in u.passwords then Done(u.(passwords := Remove(u.passwords, hash(t)))) else Failed(ENODEV)
    case DelHash(t) =>
      if !ValidHash(t) then Failed(EBADMSG)
      else if t in u.passwords then Done(u.(passwords := Remove(u.passwords, t))) else Failed(ENODEV)
    case AddPattern(t) =>
      if u.allkeys then Failed(EEXIST)
      else if HasSpaces(t) then Failed(EINVAL)
      else Done(u.(patterns := AddNew(u.patterns, t)))
    case AddCommand(n) =>
      var c := Lookup(tb.commands, n);
      if c.None? then Failed(ENOENT) else Done(DropSubs(SetBit(tb, u, c.value.id, true), {c.value.id}))
    case AddSub(n, s) =>
      var c := Lookup(tb.commands, n);
      if c.None? then Failed(ENOENT)
      else if s == "" then Failed(EINVAL)
      else if c.value.id in u.bits then Failed(EBUSY)
      else Done(SetBit(tb, AddSubcommand(u, c.value.id, s), c.value.id, false))
    case RemoveCommand(n) =>
      var c := Lookup(tb.commands, n);
      if c.None? then Failed(ENOENT) else Done(DropSubs(SetBit(tb, u, c.value.id, false), {c.value.id}))
    case AddCategory(n) =>
      var c := FindCategory(tb.categories, n);
      if c.None? then Failed(ENOENT) else Done(SetCategory(tb, u, c.value, true))
    case RemoveCategory(n) =>
      var c := FindCategory(tb.categories, n);
      if c.None? then Failed(ENOENT) else Done(SetCategory(tb, u, c.value, false))
    case Reset => Done(ResetUser(u))
    case Unknown => Failed(EINVAL)
  }

  /** ACLSetUser */
  function SetUser(tb: Table, hash: string -> string, u: User, op: string): Result {
    Effect(tb, hash, u, ParseRule(op))
  }

  /** Applying rules one after the other, stopping at the first error. */
  function SetAll(tb: Table, hash: string -> string, u: User, ops: seq<string>): Result
    decreases |ops|
  {
    if ops == [] then Done(u)
    else
      var r := SetUser(tb, hash, u, ops[0]);
      if r.Failed? then r else SetAll(tb, hash, r.u, ops[1..])
  }

  lemma {:induction false} SetAllConcat(tb: Table, hash: string -> string, u: User, a: seq<string>, b: seq<string>)
    ensures SetAll(tb, hash, u, a + b) ==
            var r := SetAll(tb, hash, u, a);
            if r.Failed? then r else SetAll(tb, hash, r.u, b)
    decreases |a|
  {
    hide SetUser;
    if a == [] {
      assert a + b == b;
    } else {
      assert (a + b)[1..] == a[1..] + b;
      var r := SetUser(tb, hash, u, a[0]);
      if r.Done? { SetAllConcat(tb, hash, r.u, a[1..], b); }
    }
  }

  // ----- the invariant of users ---------------------------------------------

  predicate NoDuplicates(xs: seq<string>) {
    forall i, k :: 0 <= i < k < |xs| ==> xs[i] != xs[k]
  }

  predicate SubsOk(xs: seq<string>) {
    && xs != []
    && (forall i :: 0 <= i < |xs| ==> xs[i] != "" && '\0' !in xs[i])
    && (forall i, k :: 0 <= i < k < |xs| ==> Lower(xs[i]) != Lower(xs[k]))
  }

  /** Bits outside the table all equal the reserved bit. */
  predicate OutsideUniform(tb: Table, bits: set<nat>)
    requires tb.bits >= 1
  {
    forall i: nat :: i < tb.bits && i !in Ids(tb.commands) ==> (i in bits <==> Reserved(tb) in bits)
  }

  predicate CommandsOk(tb: Table, u: User)
    requires tb.bits >= 1
  {
    && u.bits <= AllBits(tb)
    && OutsideUniform(tb, u.bits)
    && (forall id :: id in u.subs ==> id in Ids(tb.commands) && id !in u.bits && SubsOk(u.subs[id]))
    && (u.allcommands ==> u.bits == AllBits(tb))
  }

  predicate ListsOk(u: User) {
    && u.enabled != u.disabled
    && (u.nopass ==> u.passwords == [])
    && (u.allkeys ==> u.patterns == [])
    && NoDuplicates(u.passwords) && (forall i :: 0 <= i < |u.passwords| ==> ValidHash(u.passwords[i]))
    && NoDuplicates(u.patterns)
    && (forall i :: 0 <= i < |u.patterns| ==> !HasSpaces(u.patterns[i]) && u.patterns[i] != "*")
  }

  /** The bit of a command follows the reserved one. */
  predicate Follows(tb: Table, u: User, id: nat)
    requires tb.bits >= 1
  {
    id in u.bits <==> Reserved(tb) in u.bits
  }

  /** A command that no rule +name can mean has no subcommands, and its bit only together with the
      reserved one; if no rule -name can mean it either, the bit follows the reserved one. */
  predicate OddOk(tb: Table, u: User, c: Command)
    requires tb.bits >= 1
  {
    && (!Addable(c.name) ==> c.id !in u.subs && (c.id in u.bits ==> Reserved(tb) in u.bits))
    && (!Removable(c.name) ==> Follows(tb, u, c.id))
  }

  predicate UserOk(tb: Table, u: User)
    requires tb.bits >= 1
  {
    CommandsOk(tb, u) && ListsOk(u) && forall c :: c in tb.commands ==> OddOk(tb, u, c)
  }

  /** SHA-256 in lower case hexadecimal. */
  ghost predicate HashOk(hash: string -> string) {
    forall s: string :: ValidHash(hash(s))
  }

  lemma FreshOk(tb: Table)
    requires TableOk(tb)
    ensures UserOk(tb, FRESH_USER) && CommandsOk(tb, ZERO)
  {
  }

  lemma IdsInRange(tb: Table)
    requires TableOk(tb)
    ensures tb.bits >= 1 && forall id :: id in Ids(tb.commands) ==> id < tb.bits - 1
    ensures Ids(tb.commands) <= AllBits(tb)
  {
  }

  lemma OneBit(tb: Table, u: User, id: nat, on: bool)
    ensures SetBits(tb, u, {id}, on) == DropSubs(SetBit(tb, u, id, on), {id})
  {
    assert InBitmap(tb, {id}) == if id < tb.bits then {id} else {};
    hide InBitmap;
    assert u.bits - {} == u.bits && u.bits + {} == u.bits;
  }

  lemma BitRuleKeepsOk(tb: Table, u: User, ids: set<nat>, on: bool)
    requires TableOk(tb) && CommandsOk(tb, u) && ids <= Ids(tb.commands)
    ensures CommandsOk(tb, SetBits(tb, u, ids, on))
  {
    hide SubsOk;
    hide TableOk;
    hide Ids;
    hide AllBits;
    IdsInRange(tb);
    var v := SetBits(tb, u, ids, on);
    assert forall i: nat :: i < tb.bits && i !in Ids(tb.commands) ==> (i in v.bits <==> i in u.bits);
    if v.allcommands {
      assert u.bits == AllBits(tb);
      assert v.bits == u.bits;
    }
  }

  lemma SubsSnocOk(xs: seq<string>, sub: string)
    requires xs == [] || SubsOk(xs)
    requires !HasNoCase(xs, sub) && sub != "" && '\0' !in sub
    ensures SubsOk(xs + [sub])
  {
    hide Lower;
    assert forall i :: 0 <= i < |xs| ==> Lower(xs[i]) != Lower(sub);
  }

  lemma ClearBitKeepsOk(tb: Table, u: User, id: nat)
    requires tb.bits >= 1 && CommandsOk(tb, u) && id !in u.bits
    ensures CommandsOk(tb, SetBit(tb, u, id, false))
  {
    hide SubsOk;
    hide Ids;
    hide OutsideUniform;
    hide AllBits;
    assert u.bits - {id} == u.bits;
  }

  lemma AddedSubOk(tb: Table, u: User, id: nat, sub: string)
    requires tb.bits >= 1 && CommandsOk(tb, u) && id in Ids(tb.commands) && id !in u.bits
    requires sub != "" && '\0' !in sub
    ensures CommandsOk(tb, AddSubcommand(u, id, sub))
  {
    hide SubsOk;
    hide HasNoCase;
    hide Ids;
    hide OutsideUniform;
    hide AllBits;
    var xs := if id in u.subs then u.subs[id] else [];
    if !HasNoCase(xs, sub) {
      SubsSnocOk(xs, sub);
    }
  }

  lemma AddSubKeepsOk(tb: Table, u: User, id: nat, sub: string)
    requires tb.bits >= 1 && CommandsOk(tb, u) && id in Ids(tb.commands) && id !in u.bits
    requires sub != "" && '\0' !in sub
    ensures CommandsOk(tb, SetBit(tb, AddSubcommand(u, id, sub), id, false))
  {
    hide CommandsOk;
    hide HasNoCase;
    hide Ids;
    hide SetBit;
    AddedSubOk(tb, u, id, sub);
    ClearBitKeepsOk(tb, AddSubcommand(u, id, sub), id);
  }

  lemma {:induction false} RemoveOk(xs: seq<string>, x: string)
    requires NoDuplicates(xs)
    ensures NoDuplicates(Remove(xs, x))
    ensures forall y :: y in Remove(xs, x) ==> y in xs
  {
    if xs == [] {
    } else {
      RemoveOk(xs[1..], x);
      if xs[0] != x {
        var r := Remove(xs[1..], x);
        assert forall i :: 0 <= i < |r| ==> r[i] in xs[1..];
        assert xs[0] !in xs[1..];
        assert forall i :: 0 <= i < |r| ==> r[i] != xs[0];
      }
    }
  }

  /** Parsed texts that reach a user satisfy what the invariant asks of them. */
  predicate RuleOk(r: Rule) {
    && (r.AddPattern? ==> r.text != "*")
    && (r.AddSub? ==> '\0' !in r.sub && Addable(r.name))
    && (r.AddCommand? ==> Addable(r.name))
    && (r.RemoveCommand? ==> Removable(r.name))
  }

  lemma StarIsKeyword()
    ensures ParseRule("~*") == AllKeys
  {
    CStrWhole("~*");
    assert Lower("~*") == "~*";
  }

  lemma TailHasNoNul(c: string, k: nat)
    requires '\0' !in c && k <= |c|
    ensures '\0' !in c[k..]
  {
    assert forall x :: x in c[k..] ==> x in c;
  }

  lemma ParsedOk(op: string)
    ensures RuleOk(ParseRule(op))
  {
    hide Lower;
    StarIsKeyword();
    KeywordsOk(Lower(CStr(op)));
    hide Keyword;
    var c := CStr(op);
    if op != "" && op[0] == '~' && op[1..] == "*" {
      assert op == "~*";
    }
    var k := Find(c, '|');
    if k < |c| { TailHasNoNul(c, k + 1); }
  }

  lemma KeywordsOk(low: string)
    ensures Keyword(low).Some? ==> RuleOk(Keyword(low).value)
  {
  }

  lemma PasswordRuleKeepsOk(tb: Table, hash: string -> string, u: User, r: Rule)
    requires HashOk(hash) && ListsOk(u) && Effect(tb, hash, u, r).Done?
    requires IsPasswordRule(r)
    ensures ListsOk(Effect(tb, hash, u, r).u)
  {
    hide ValidHash;
    hide HasSpaces;
    if r.DelPass? {
      RemoveOk(u.passwords, hash(r.text));
      RemovedValid(u.passwords, hash(r.text));
    } else if r.DelHash? {
      RemoveOk(u.passwords, r.text);
      RemovedValid(u.passwords, r.text);
    }
  }

  lemma RemovedValid(xs: seq<string>, x: string)
    requires NoDuplicates(xs) && forall i :: 0 <= i < |xs| ==> ValidHash(xs[i])
    ensures forall i :: 0 <= i < |Remove(xs, x)| ==> ValidHash(Remove(xs, x)[i])
  {
    hide ValidHash;
    RemoveOk(xs, x);
    assert forall y :: y in xs ==> ValidHash(y);
    forall i | 0 <= i < |Remove(xs, x)| ensures ValidHash(Remove(xs, x)[i]) {
      assert Remove(xs, x)[i] in Remove(xs, x);
    }
  }

  predicate IsPasswordRule(r: Rule) {
    r.AddPass? || r.AddHash? || r.DelPass? || r.DelHash?
  }

  predicate IsCommandRule(r: Rule) {
    r.AddCommand? || r.RemoveCommand? || r.AddSub? || r.AddCategory? || r.RemoveCategory?
  }

  /** The two users differ in commands only. */
  predicate SameRest(u: User, v: User) {
    v == u.(bits := v.bits, subs := v.subs, allcommands := v.allcommands)
  }

  lemma SetBitsRest(tb: Table, u: User, ids: set<nat>, on: bool)
    ensures SameRest(u, SetBits(tb, u, ids, on))
  {
  }

  lemma AddSubRest(tb: Table, u: User, id: nat, sub: string)
    ensures SameRest(u, SetBit(tb, AddSubcommand(u, id, sub), id, false))
  {
    hide HasNoCase;
  }

  /** Rules about commands leave flags and lists alone. */
  lemma CommandRuleRest(tb: Table, hash: string -> string, u: User, r: Rule)
    requires IsCommandRule(r) && Effect(tb, hash, u, r).Done?
    ensures SameRest(u, Effect(tb, hash, u, r).u)
  {
    hide Lookup;
    hide FindCategory;
    hide CategoryIds;
    hide AddSubcommand;
    hide SetBits;
    hide SetBit;
    hide DropSubs;
    hide SameRest;
    match r
    case AddCommand(n) =>
      OneBit(tb, u, Lookup(tb.commands, n).value.id, true);
      SetBitsRest(tb, u, {Lookup(tb.commands, n).value.id}, true);
    case RemoveCommand(n) =>
      OneBit(tb, u, Lookup(tb.commands, n).value.id, false);
      SetBitsRest(tb, u, {Lookup(tb.commands, n).value.id}, false);
    case AddSub(n, sub) => AddSubRest(tb, u, Lookup(tb.commands, n).value.id, sub);
    case AddCategory(n) =>
      SetBitsRest(tb, u, CategoryIds(tb.commands, FindCategory(tb.categories, n).value), true);
    case RemoveCategory(n) =>
      SetBitsRest(tb, u, CategoryIds(tb.commands, FindCategory(tb.categories, n).value), false);
  }

  lemma SameLists(u: User, v: User)
    requires ListsOk(u) && SameRest(u, v)
    ensures ListsOk(v)
  {
    hide ValidHash;
    hide HasSpaces;
    hide NoDuplicates;
  }

  lemma PatternRuleKeepsOk(tb: Table, hash: string -> string, u: User, r: Rule)
    requires ListsOk(u) && r.AddPattern? && RuleOk(r) && Effect(tb, hash, u, r).Done?
    ensures ListsOk(Effect(tb, hash, u, r).u)
  {
    hide ValidHash;
    hide HasSpaces;
  }

  lemma ListRuleKeepsOk(tb: Table, hash: string -> string, u: User, r: Rule)
    requires ListsOk(u) && RuleOk(r) && Effect(tb, hash, u, r).Done?
    requires !IsPasswordRule(r)
    ensures ListsOk(Effect(tb, hash, u, r).u)
  {
    hide ValidHash;
    hide HasSpaces;
    hide Lookup;
    hide FindCategory;
    hide HasNoCase;
    hide AddNew;
    hide Remove;
    hide SetCategory;
    hide SetBit;
    hide DropSubs;
    hide AddSubcommand;
    hide AllBits;
    if IsCommandRule(r) {
      CommandRuleRest(tb, hash, u, r);
      SameLists(u, Effect(tb, hash, u, r).u);
    } else if r.AddPattern? {
      PatternRuleKeepsOk(tb, hash, u, r);
    }
  }

  lemma CommandRuleKeepsOk(tb: Table, hash: string -> string, u: User, r: Rule)
    requires TableOk(tb) && CommandsOk(tb, u) && RuleOk(r) && Effect(tb, hash, u, r).Done?
    ensures CommandsOk(tb, Effect(tb, hash, u, r).u)
  {
    hide ValidHash;
    hide HasSpaces;
    hide HasNoCase;
    hide AddSubcommand;
    hide Lookup;
    hide FindCategory;
    hide SetBits;
    hide SetBit;
    hide DropSubs;
    match r
    case AddCommand(n) =>
      OneBit(tb, u, Lookup(tb.commands, n).value.id, true);
      BitRuleKeepsOk(tb, u, {Lookup(tb.commands, n).value.id}, true);
    case RemoveCommand(n) =>
      OneBit(tb, u, Lookup(tb.commands, n).value.id, false);
      BitRuleKeepsOk(tb, u, {Lookup(tb.commands, n).value.id}, false);
    case AddSub(n, s) => AddSubKeepsOk(tb, u, Lookup(tb.commands, n).value.id, s);
    case AddCategory(n) =>
      BitRuleKeepsOk(tb, u, CategoryIds(tb.commands, FindCategory(tb.categories, n).value), true);
    case RemoveCategory(n) =>
      BitRuleKeepsOk(tb, u, CategoryIds(tb.commands, FindCategory(tb.categories, n).value), false);
    case _ =>
  }

  // ----- commands that rules cannot name ------------------------------------

  /** The rule means this command by its name. */
  predicate Names(r: Rule, c: Command) {
    (r.AddCommand? || r.AddSub? || r.RemoveCommand?) && Lower(r.name) == Lower(c.name)
  }

  /** Bit and reserved bit stay as they are, or come out equal; no subcommands appear. */
  predicate LeavesAlone(tb: Table, u: User, v: User, id: nat)
    requires tb.bits >= 1
  {
    && (id in v.subs ==> id in u.subs)
    && (Follows(tb, v, id) || ((id in v.bits <==> id in u.bits) && (Reserved(tb) in v.bits <==> Reserved(tb) in u.bits)))
  }

  lemma SameId(tb: Table, c: Command, d: Command)
    requires TableOk(tb) && c in tb.commands && d in tb.commands && c.id == d.id
    ensures c == d
  {
    var i :| 0 <= i < |tb.commands| && tb.commands[i] == c;
    var k :| 0 <= k < |tb.commands| && tb.commands[k] == d;
  }

  lemma ModuleInNoCategory(tb: Table, c: Command, cat: string)
    requires TableOk(tb) && c in tb.commands && c.isModule
    ensures c.id !in CategoryIds(tb.commands, cat)
  {
    hide TableOk;
    if c.id in CategoryIds(tb.commands, cat) {
      var d :| d in tb.commands && !d.isModule && cat in d.categories && d.id == c.id;
      SameId(tb, c, d);
    }
  }

  lemma FoundIsNamed(tb: Table, c: Command, r: Rule)
    requires TableOk(tb) && c in tb.commands && (r.AddCommand? || r.AddSub? || r.RemoveCommand?) && !Names(r, c)
    ensures var d := Lookup(tb.commands, r.name); d.Some? ==> d.value.id != c.id
  {
    hide TableOk;
    hide Lower;
    var d := Lookup(tb.commands, r.name);
    if d.Some? && d.value.id == c.id { SameId(tb, c, d.value); }
  }

  lemma BitsLeaveAlone(tb: Table, u: User, ids: set<nat>, on: bool, id: nat)
    requires tb.bits >= 1 && id !in ids && Reserved(tb) !in ids
    ensures LeavesAlone(tb, u, SetBits(tb, u, ids, on), id)
  {
  }

  lemma SubLeavesAlone(tb: Table, u: User, at: nat, sub: string, id: nat)
    requires tb.bits >= 1 && id != at && Reserved(tb) != at
    ensures LeavesAlone(tb, u, SetBit(tb, AddSubcommand(u, at, sub), at, false), id)
  {
    hide HasNoCase;
  }

  lemma CommandRuleLeavesAlone(tb: Table, hash: string -> string, u: User, r: Rule, c: Command)
    requires TableOk(tb) && c in tb.commands && c.isModule && !Names(r, c)
    requires IsCommandRule(r) && Effect(tb, hash, u, r).Done?
    ensures LeavesAlone(tb, u, Effect(tb, hash, u, r).u, c.id)
  {
    hide Names;
    hide LeavesAlone;
    hide AddSubcommand;
    hide HasNoCase;
    hide SetBits;
    hide SetBit;
    hide DropSubs;
    IdsInRange(tb);
    hide TableOk;
    match r
    case AddCommand(n) =>
      FoundIsNamed(tb, c, r);
      OneBit(tb, u, Lookup(tb.commands, n).value.id, true);
      BitsLeaveAlone(tb, u, {Lookup(tb.commands, n).value.id}, true, c.id);
    case RemoveCommand(n) =>
      FoundIsNamed(tb, c, r);
      OneBit(tb, u, Lookup(tb.commands, n).value.id, false);
      BitsLeaveAlone(tb, u, {Lookup(tb.commands, n).value.id}, false, c.id);
    case AddSub(n, s) =>
      FoundIsNamed(tb, c, r);
      SubLeavesAlone(tb, u, Lookup(tb.commands, n).value.id, s, c.id);
    case AddCategory(n) =>
      var cat := FindCategory(tb.categories, n).value;
      ModuleInNoCategory(tb, c, cat);
      BitsLeaveAlone(tb, u, CategoryIds(tb.commands, cat), true, c.id);
    case RemoveCategory(n) =>
      var cat := FindCategory(tb.categories, n).value;
      ModuleInNoCategory(tb, c, cat);
      BitsLeaveAlone(tb, u, CategoryIds(tb.commands, cat), false, c.id);
  }

  lemma OtherRuleLeavesAlone(tb: Table, hash: string -> string, u: User, r: Rule, id: nat)
    requires tb.bits >= 1 && id < tb.bits && !IsCommandRule(r) && Effect(tb, hash, u, r).Done?
    ensures LeavesAlone(tb, u, Effect(tb, hash, u, r).u, id)
  {
    hide ValidHash;
    hide HasSpaces;
    hide AddNew;
    hide Remove;
  }

  /** A rule that does not name a module's command leaves it alone. */
  lemma RuleLeavesAlone(tb: Table, hash: string -> string, u: User, r: Rule, c: Command)
    requires TableOk(tb) && c in tb.commands && c.isModule && !Names(r, c) && Effect(tb, hash, u, r).Done?
    ensures LeavesAlone(tb, u, Effect(tb, hash, u, r).u, c.id)
  {
    hide Effect;
    hide LeavesAlone;
    hide Names;
    IdsInRange(tb);
    hide TableOk;
    if IsCommandRule(r) {
      CommandRuleLeavesAlone(tb, hash, u, r, c);
    } else {
      OtherRuleLeavesAlone(tb, hash, u, r, c.id);
    }
  }

  /** Names that differ in case only are alike in what matters to a rule. */
  lemma SameKind(a: string, b: string)
    requires Lower(a) == Lower(b) && '\0' !in b
    ensures Removable(a) ==> Removable(b)
    ensures Addable(a) ==> Addable(b)
  {
    assert |a| == |b|;
    forall i | 0 <= i < |a| ensures (a[i] == '@' <==> b[i] == '@') && (a[i] == '|' <==> b[i] == '|') {
      assert LowerChar(a[i]) == Lower(a)[i] == Lower(b)[i] == LowerChar(b[i]);
    }
  }

  /** Removing a command by its name clears its bit and its subcommands, and no other bit. */
  lemma RemovedIsClear(tb: Table, hash: string -> string, u: User, r: Rule, c: Command)
    requires TableOk(tb) && c in tb.commands && r.RemoveCommand? && Names(r, c) && Effect(tb, hash, u, r).Done?
    ensures var v := Effect(tb, hash, u, r).u;
            c.id !in v.bits && c.id !in v.subs && (Reserved(tb) in v.bits <==> Reserved(tb) in u.bits)
  {
    hide Lower;
    IdsInRange(tb);
    NameFinds(tb, c, r.name);
    hide TableOk;
    hide Lookup;
  }

  lemma NameFinds(tb: Table, c: Command, n: string)
    requires TableOk(tb) && c in tb.commands && Lower(n) == Lower(c.name)
    ensures Lookup(tb.commands, n) == Some(c)
  {
    hide Lower;
    var i :| 0 <= i < |tb.commands| && tb.commands[i] == c;
    LookupFinds(tb.commands, i);
    LookupSame(tb.commands, n, c.name);
  }

  lemma {:induction false} LookupSame(cmds: seq<Command>, a: string, b: string)
    requires Lower(a) == Lower(b)
    ensures Lookup(cmds, a) == Lookup(cmds, b)
  {
    hide Lower;
    if cmds != [] { LookupSame(cmds[1..], a, b); }
  }

  lemma OddRuleKeepsOk(tb: Table, hash: string -> string, u: User, r: Rule, c: Command)
    requires TableOk(tb) && c in tb.commands && OddOk(tb, u, c) && RuleOk(r) && Effect(tb, hash, u, r).Done?
    ensures OddOk(tb, Effect(tb, hash, u, r).u, c)
  {
    hide Effect;
    hide Addable;
    hide Removable;
    OddIsModule(tb, c);
    hide TableOk;
    if !Addable(c.name) {
      if Names(r, c) {
        SameKind(r.name, c.name);
        assert r.RemoveCommand?;
        RemovedIsClear(tb, hash, u, r, c);
      } else {
        RuleLeavesAlone(tb, hash, u, r, c);
      }
    }
  }

  lemma OddIsModule(tb: Table, c: Command)
    requires TableOk(tb) && c in tb.commands
    ensures '\0' !in c.name && (!Addable(c.name) ==> c.isModule) && (!Removable(c.name) ==> !Addable(c.name))
  {
    hide HasSpaces;
    var i :| 0 <= i < |tb.commands| && tb.commands[i] == c;
  }

  /** Every rule that succeeds keeps the invariant. */
  lemma SetUserKeepsOk(tb: Table, hash: string -> string, u: User, op: string)
    requires TableOk(tb) && HashOk(hash) && UserOk(tb, u) && SetUser(tb, hash, u, op).Done?
    ensures UserOk(tb, SetUser(tb, hash, u, op).u)
  {
    hide ParseRule;
    hide Effect;
    hide CommandsOk;
    hide ListsOk;
    hide RuleOk;
    hide OddOk;
    ParsedOk(op);
    var r := ParseRule(op);
    CommandRuleKeepsOk(tb, hash, u, r);
    if IsPasswordRule(r) {
      PasswordRuleKeepsOk(tb, hash, u, r);
    } else {
      ListRuleKeepsOk(tb, hash, u, r);
    }
    forall c | c in tb.commands ensures OddOk(tb, Effect(tb, hash, u, r).u, c) {
      OddRuleKeepsOk(tb, hash, u, r, c);
    }
  }

  /** A table that gained commands, with the ids of the old ones unchanged; the iteration order
      may be any other one. */
  predicate Grows(tb: Table, tb': Table) {
    && tb'.bits == tb.bits && tb'.categories == tb.categories
    && (forall c :: c in tb.commands ==> c in tb'.commands)
  }

  /** New commands find their bit equal to the reserved bit, so old users stay fine. */
  lemma GrowthKeepsOk(tb: Table, tb': Table, u: User)
    requires TableOk(tb) && TableOk(tb') && Grows(tb, tb') && UserOk(tb, u)
    ensures UserOk(tb', u)
  {
    hide ListsOk;
    hide SubsOk;
    assert Ids(tb.commands) <= Ids(tb'.commands);
    assert AllBits(tb) == AllBits(tb');
  }
}
