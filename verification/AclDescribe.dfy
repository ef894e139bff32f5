/**
  ACLDescribeUserCommandRules and ACLDescribeUser: the rules printed for a user, and what
  applying them to a blank user gives.
 */
module AclDescribe {
  import opened Text
  import opened AclRules

  // ----- what is printed ----------------------------------------------------

  function StartRule(tb: Table, u: User): Rule
    requires tb.bits >= 1
  {
    if Reserved(tb) in u.bits then AllCommands else NoCommands
  }

  /** ACLCountCategoryBitsForUser; here module commands count. */
  function CountBits(cmds: seq<Command>, cat: string, bits: set<nat>, on: bool): nat {
    if cmds == [] then 0
    else
      (if cat in cmds[0].categories && (cmds[0].id in bits) == on then 1 else 0) + CountBits(cmds[1..], cat, bits, on)
  }

  predicate WorthIt(tb: Table, u: User, cat: string, additive: bool) {
    var on := CountBits(tb.commands, cat, u.bits, true);
    var off := CountBits(tb.commands, cat, u.bits, false);
    if additive then on > off else off > on
  }

  function CategoryRules(tb: Table, u: User, cats: seq<string>, additive: bool): seq<Rule> {
    if cats == [] then []
    else
      (if WorthIt(tb, u, cats[0], additive)
       then [if additive then AddCategory(cats[0]) else RemoveCategory(cats[0])] else []) +
      CategoryRules(tb, u, cats[1..], additive)
  }

  /** The bits of the describer's fake user after its category rules. */
  function CategoryBits(tb: Table, u: User, cats: seq<string>, additive: bool, fake: set<nat>): set<nat>
    decreases |cats|
  {
    if cats == [] then fake
    else
      var ids := CategoryIds(tb.commands, cats[0]);
      var next := if !WorthIt(tb, u, cats[0], additive) then fake
                  else if additive then fake + ids else fake - ids;
      CategoryBits(tb, u, cats[1..], additive, next)
  }

  function SubRules(name: string, subs: seq<string>): seq<Rule> {
    if subs == [] then [] else [AddSub(name, subs[0])] + SubRules(name, subs[1..])
  }

  function FixBit(u: User, fake: set<nat>, id: nat): set<nat> {
    if id in u.bits then fake + {id} else fake - {id}
  }

  /** The rules for one command of the final pass. */
  function RulesFor(u: User, fake: set<nat>, c: Command): seq<Rule> {
    (if (c.id in u.bits) == (c.id in fake) then []
     else if c.id in u.bits then [AddCommand(c.name)] else [RemoveCommand(c.name)]) +
    (if c.id !in u.bits && c.id in u.subs then SubRules(c.name, u.subs[c.id]) else [])
  }

  function CommandRules(u: User, fake: set<nat>, cmds: seq<Command>): seq<Rule>
    decreases |cmds|
  {
    if cmds == [] then [] else RulesFor(u, fake, cmds[0]) + CommandRules(u, FixBit(u, fake, cmds[0].id), cmds[1..])
  }

  function FinalBits(u: User, fake: set<nat>, cmds: seq<Command>): set<nat>
    decreases |cmds|
  {
    if cmds == [] then fake else FinalBits(u, FixBit(u, fake, cmds[0].id), cmds[1..])
  }

  function StartBits(tb: Table, u: User): set<nat>
    requires tb.bits >= 1
  {
    if Reserved(tb) in u.bits then AllBits(tb) else {}
  }

  function Additive(tb: Table, u: User): bool
    requires tb.bits >= 1
  {
    Reserved(tb) !in u.bits
  }

  /** The fake user's bits before the final pass. */
  function GuessBits(tb: Table, u: User): set<nat>
    requires tb.bits >= 1
  {
    CategoryBits(tb, u, tb.categories, Additive(tb, u), StartBits(tb, u))
  }

  /** The fake user's bits at the end; the describer panics when they differ from the user's. */
  function PredictedBits(tb: Table, u: User): set<nat>
    requires tb.bits >= 1
  {
    FinalBits(u, GuessBits(tb, u), tb.commands)
  }

  predicate Panics(tb: Table, u: User)
    requires tb.bits >= 1
  {
    PredictedBits(tb, u) != u.bits
  }

  function DescribeCommands(tb: Table, u: User): seq<Rule>
    requires tb.bits >= 1
  {
    [StartRule(tb, u)] + CategoryRules(tb, u, tb.categories, Additive(tb, u)) +
    CommandRules(u, GuessBits(tb, u), tb.commands)
  }

  function HashRules(hs: seq<string>): seq<Rule> {
    if hs == [] then [] else [AddHash(hs[0])] + HashRules(hs[1..])
  }

  function PatternRules(ps: seq<string>): seq<Rule> {
    if ps == [] then [] else [AddPattern(ps[0])] + PatternRules(ps[1..])
  }

  function FlagRules(u: User): seq<Rule> {
    (if u.enabled then [SwitchOn] else []) + (if u.disabled then [SwitchOff] else []) +
    (if u.nopass then [NoPass] else [])
  }

  /** Everything but the command rules. */
  function DescribeRest(u: User): seq<Rule> {
    FlagRules(u) + HashRules(u.passwords) + (if u.allkeys then [AllKeys] else PatternRules(u.patterns))
  }

  /** ACLDescribeUser, as a list of rules. */
  function Describe(tb: Table, u: User): seq<Rule>
    requires tb.bits >= 1
  {
    DescribeRest(u) + DescribeCommands(tb, u)
  }

  function Tokens(rules: seq<Rule>): (ts: seq<string>)
    ensures |ts| == |rules| && forall i :: 0 <= i < |rules| ==> ts[i] == PrintRule(rules[i])
  {
    if rules == [] then [] else [PrintRule(rules[0])] + Tokens(rules[1..])
  }

  // ----- the panic ----------------------------------------------------------

  lemma {:induction false} FinalBitsAt(u: User, fake: set<nat>, cmds: seq<Command>, id: nat)
    ensures id in FinalBits(u, fake, cmds) <==> if id in Ids(cmds) then id in u.bits else id in fake
    decreases |cmds|
  {
    if cmds == [] {
    } else {
      FinalBitsAt(u, FixBit(u, fake, cmds[0].id), cmds[1..], id);
      assert Ids(cmds) == {cmds[0].id} + Ids(cmds[1..]) by {
        assert cmds == [cmds[0]] + cmds[1..];
      }
    }
  }

  lemma {:induction false} CategoryBitsAt(tb: Table, u: User, cats: seq<string>, additive: bool, fake: set<nat>, id: nat)
    requires forall cat :: id !in CategoryIds(tb.commands, cat)
    ensures id in CategoryBits(tb, u, cats, additive, fake) <==> id in fake
    decreases |cats|
  {
    hide WorthIt;
    if cats == [] {
    } else {
      var ids := CategoryIds(tb.commands, cats[0]);
      assert id !in ids;
      var next := if !WorthIt(tb, u, cats[0], additive) then fake
                  else if additive then fake + ids else fake - ids;
      CategoryBitsAt(tb, u, cats[1..], additive, next, id);
    }
  }

  lemma NoCategoryOutside(tb: Table, id: nat)
    requires id !in Ids(tb.commands)
    ensures forall cat :: id !in CategoryIds(tb.commands, cat)
  {
  }

  /** The "No bitmap match" panic is reached exactly when some bit outside the command table
      differs from the reserved bit. */
  lemma PanicIff(tb: Table, u: User)
    requires tb.bits >= 1 && u.bits <= AllBits(tb)
    ensures Panics(tb, u) <==> !OutsideUniform(tb, u.bits)
  {
    hide FinalBits;
    hide CategoryBits;
    var p := PredictedBits(tb, u);
    hide Ids;
    forall id: nat ensures id in p <==> if id in Ids(tb.commands) then id in u.bits
                                        else id < tb.bits && Reserved(tb) in u.bits
    {
      FinalBitsAt(u, GuessBits(tb, u), tb.commands, id);
      if id !in Ids(tb.commands) {
        NoCategoryOutside(tb, id);
        CategoryBitsAt(tb, u, tb.categories, Additive(tb, u), StartBits(tb, u), id);
      }
    }
    if OutsideUniform(tb, u.bits) {
      assert forall id: nat :: id in u.bits ==> id < tb.bits;
      assert p == u.bits;
    } else {
      var i: nat :| i < tb.bits && i !in Ids(tb.commands) && (i in u.bits) != (Reserved(tb) in u.bits);
      assert (i in p) != (i in u.bits);
    }
  }

  // ----- rules instead of text ----------------------------------------------

  function EffectAll(tb: Table, hash: string -> string, u: User, rules: seq<Rule>): Result
    decreases |rules|
  {
    if rules == [] then Done(u)
    else
      var r := Effect(tb, hash, u, rules[0]);
      if r.Failed? then r else EffectAll(tb, hash, r.u, rules[1..])
  }

  lemma {:induction false} EffectAllConcat(tb: Table, hash: string -> string, u: User, a: seq<Rule>, b: seq<Rule>)
    ensures EffectAll(tb, hash, u, a + b) ==
            var r := EffectAll(tb, hash, u, a);
            if r.Failed? then r else EffectAll(tb, hash, r.u, b)
    decreases |a|
  {
    hide Effect;
    if a == [] {
      assert a + b == b;
    } else {
      assert (a + b)[1..] == a[1..] + b;
      var r := Effect(tb, hash, u, a[0]);
      if r.Done? { EffectAllConcat(tb, hash, r.u, a[1..], b); }
    }
  }

  lemma EffectOne(tb: Table, hash: string -> string, u: User, r: Rule)
    ensures EffectAll(tb, hash, u, [r]) == Effect(tb, hash, u, r)
  {
    hide Effect;
    assert [r][1..] == [];
  }

  /** The token of the rule parses back to the rule. */
  predicate Readable(r: Rule) {
    ParseRule(PrintRule(r)) == r
  }

  lemma {:induction false} ReadableTokens(tb: Table, hash: string -> string, u: User, rules: seq<Rule>)
    requires forall i :: 0 <= i < |rules| ==> Readable(rules[i])
    ensures SetAll(tb, hash, u, Tokens(rules)) == EffectAll(tb, hash, u, rules)
    decreases |rules|
  {
    hide Effect;
    hide ParseRule;
    hide PrintRule;
    if rules == [] {
    } else {
      var r := Effect(tb, hash, u, rules[0]);
      assert Tokens(rules)[1..] == Tokens(rules[1..]);
      if r.Done? { ReadableTokens(tb, hash, r.u, rules[1..]); }
    }
  }

  // ----- command rules rebuild bits and subcommands -------------------------

  lemma {:induction false} CategoryRulesEffect(tb: Table, hash: string -> string, u: User, v: User,
                                               cats: seq<string>, additive: bool)
    requires TableOk(tb) && v.subs == map[] && forall c :: c in cats ==> c in tb.categories
    ensures var r := EffectAll(tb, hash, v, CategoryRules(tb, u, cats, additive));
            && r.Done?
            && r.u == v.(bits := CategoryBits(tb, u, cats, additive, v.bits), allcommands := r.u.allcommands)
            && (additive ==> r.u.allcommands == v.allcommands)
    decreases |cats|
  {
    hide WorthIt;
    if cats == [] {
    } else if WorthIt(tb, u, cats[0], additive) {
      var rule := if additive then AddCategory(cats[0]) else RemoveCategory(cats[0]);
      CategoryRuleEffect(tb, hash, v, cats[0], additive);
      var w := Effect(tb, hash, v, rule).u;
      CategoryRulesEffect(tb, hash, u, w, cats[1..], additive);
      EffectAllConcat(tb, hash, v, [rule], CategoryRules(tb, u, cats[1..], additive));
      EffectOne(tb, hash, v, rule);
      hide Effect;
      hide TableOk;
    } else {
      hide Effect;
      CategoryRulesEffect(tb, hash, u, v, cats[1..], additive);
      assert [] + CategoryRules(tb, u, cats[1..], additive) == CategoryRules(tb, u, cats[1..], additive);
    }
  }

  lemma {:induction false} FindCategoryFinds(cats: seq<string>, cat: string)
    requires cat in cats && cat == Lower(cat)
    ensures FindCategory(cats, cat) == Some(cat)
  {
    if cats[0] == Lower(cat) {
    } else {
      FindCategoryFinds(cats[1..], cat);
    }
  }

  lemma CategoryRuleEffect(tb: Table, hash: string -> string, v: User, cat: string, on: bool)
    requires TableOk(tb) && v.subs == map[] && cat in tb.categories
    ensures var ids := CategoryIds(tb.commands, cat);
            var r := Effect(tb, hash, v, if on then AddCategory(cat) else RemoveCategory(cat));
            && r.Done?
            && r.u == v.(bits := if on then v.bits + ids else v.bits - ids, allcommands := r.u.allcommands)
            && (on ==> r.u.allcommands == v.allcommands)
  {
    var ids := CategoryIds(tb.commands, cat);
    assert cat == Lower(cat) by { assert CategoryName(cat); }
    FindCategoryFinds(tb.categories, cat);
    CategoryInBitmap(tb, cat);
    BlankSetBits(tb, v, ids, on);
    hide TableOk;
    hide SetBits;
    hide CategoryIds;
    hide FindCategory;
  }

  lemma CategoryInBitmap(tb: Table, cat: string)
    requires TableOk(tb)
    ensures InBitmap(tb, CategoryIds(tb.commands, cat)) == CategoryIds(tb.commands, cat)
  {
    IdsInRange(tb);
    hide TableOk;
    assert CategoryIds(tb.commands, cat) <= Ids(tb.commands);
  }

  lemma BlankSetBits(tb: Table, v: User, ids: set<nat>, on: bool)
    requires v.subs == map[] && InBitmap(tb, ids) == ids
    ensures var u := SetBits(tb, v, ids, on);
            && u == v.(bits := if on then v.bits + ids else v.bits - ids, allcommands := u.allcommands)
            && (on ==> u.allcommands == v.allcommands)
  {
    hide InBitmap;
    assert v.subs - ids == v.subs;
  }

  /** Everything but the ALLCOMMANDS flag. */
  function Core(u: User): User {
    u.(allcommands := false)
  }

  predicate Knows(tb: Table, c: Command) {
    Lookup(tb.commands, c.name) == Some(c) && c.id < tb.bits
  }

  lemma {:induction false} SubRulesEffect(tb: Table, hash: string -> string, v: User, c: Command, xs: seq<string>, k: nat)
    requires Knows(tb, c) && SubsOk(xs) && k <= |xs| && c.id !in v.bits
    requires if k == 0 then c.id !in v.subs else c.id in v.subs && v.subs[c.id] == xs[..k]
    ensures var r := EffectAll(tb, hash, v, SubRules(c.name, xs[k..]));
            && r.Done?
            && Core(r.u) == Core(v.(subs := v.subs[c.id := xs]))
    decreases |xs| - k
  {
    hide Effect;
    hide SubsOk;
    if k == |xs| {
      SubsNonEmpty(xs);
      assert xs[..k] == xs && xs[k..] == [];
      assert v.subs[c.id := xs] == v.subs;
    } else {
      var rule := AddSub(c.name, xs[k]);
      var w := SubRuleEffect(tb, hash, v, c, xs, k);
      SubRulesEffect(tb, hash, w, c, xs, k + 1);
      assert xs[k..][1..] == xs[k + 1..];
      EffectAllConcat(tb, hash, v, [rule], SubRules(c.name, xs[k + 1..]));
      EffectOne(tb, hash, v, rule);
      assert w.subs[c.id := xs] == v.subs[c.id := xs];
    }
  }

  lemma SubsNonEmpty(xs: seq<string>)
    requires SubsOk(xs)
    ensures xs != []
  {
  }

  lemma SubRuleEffect(tb: Table, hash: string -> string, v: User, c: Command, xs: seq<string>, k: nat) returns (w: User)
    requires Knows(tb, c) && SubsOk(xs) && k < |xs| && c.id !in v.bits
    requires if k == 0 then c.id !in v.subs else c.id in v.subs && v.subs[c.id] == xs[..k]
    ensures Effect(tb, hash, v, AddSub(c.name, xs[k])) == Done(w)
    ensures w.bits == v.bits && w.subs == v.subs[c.id := xs[..k + 1]] && Core(w) == Core(v.(subs := w.subs))
  {
    hide Lower;
    w := Effect(tb, hash, v, AddSub(c.name, xs[k])).u;
    var was := if c.id in v.subs then v.subs[c.id] else [];
    assert was == xs[..k];
    assert !HasNoCase(was, xs[k]);
    assert xs[..k] + [xs[k]] == xs[..k + 1];
    assert v.bits - {c.id} == v.bits;
  }

  function WithCommand(v: User, u: User, id: nat): User {
    v.(bits := FixBit(u, v.bits, id), subs := if id in u.subs then v.subs[id := u.subs[id]] else v.subs)
  }

  /** The rules of one command bring its bit and its subcommands over. */
  lemma RulesForEffect(tb: Table, hash: string -> string, v: User, u: User, c: Command)
    requires Knows(tb, c) && c.id !in v.subs
    requires c.id in u.subs ==> c.id !in u.bits && SubsOk(u.subs[c.id])
    ensures var r := EffectAll(tb, hash, v, RulesFor(u, v.bits, c));
            r.Done? && Core(r.u) == Core(WithCommand(v, u, c.id))
    ensures c.id in u.bits ==> EffectAll(tb, hash, v, RulesFor(u, v.bits, c)).u.allcommands == v.allcommands
  {
    var first := if (c.id in u.bits) == (c.id in v.bits) then []
                 else if c.id in u.bits then [AddCommand(c.name)] else [RemoveCommand(c.name)];
    var second := if c.id !in u.bits && c.id in u.subs then SubRules(c.name, u.subs[c.id]) else [];
    FirstRuleEffect(tb, hash, v, u, c);
    hide Effect;
    hide SubsOk;
    EffectAllConcat(tb, hash, v, first, second);
    var w := EffectAll(tb, hash, v, first).u;
    if c.id in u.subs {
      SubRulesEffect(tb, hash, w, c, u.subs[c.id], 0);
      assert u.subs[c.id][0..] == u.subs[c.id];
    }
  }

  lemma FirstRuleEffect(tb: Table, hash: string -> string, v: User, u: User, c: Command)
    requires Knows(tb, c) && c.id !in v.subs
    ensures var first := if (c.id in u.bits) == (c.id in v.bits) then []
                         else if c.id in u.bits then [AddCommand(c.name)] else [RemoveCommand(c.name)];
            var r := EffectAll(tb, hash, v, first);
            && r.Done? && Core(r.u) == Core(v.(bits := FixBit(u, v.bits, c.id)))
            && (c.id in u.bits ==> r.u.allcommands == v.allcommands)
  {
    assert v.subs - {c.id} == v.subs;
    if (c.id in u.bits) == (c.id in v.bits) {
      assert FixBit(u, v.bits, c.id) == v.bits;
    } else if c.id in u.bits {
      EffectOne(tb, hash, v, AddCommand(c.name));
    } else {
      EffectOne(tb, hash, v, RemoveCommand(c.name));
    }
  }

  /** The subcommands of the commands in cmds. */
  function SubsOf(u: User, cmds: seq<Command>): map<nat, seq<string>> {
    map id | id in u.subs && id in Ids(cmds) :: u.subs[id]
  }

  predicate DistinctIds(cmds: seq<Command>) {
    forall i, k :: 0 <= i < k < |cmds| ==> cmds[i].id != cmds[k].id
  }

  /** v with the bits and subcommands that u has for the commands in cmds. */
  function WithCommands(v: User, u: User, cmds: seq<Command>): User {
    v.(bits := FinalBits(u, v.bits, cmds), subs := v.subs + SubsOf(u, cmds))
  }

  lemma WithOneMore(v: User, w: User, u: User, cmds: seq<Command>)
    requires cmds != [] && Core(w) == Core(WithCommand(v, u, cmds[0].id))
    ensures Core(WithCommands(w, u, cmds[1..])) == Core(WithCommands(v, u, cmds))
  {
    hide SubsOf;
    hide FixBit;
    CoreFields(w, WithCommand(v, u, cmds[0].id));
    SubsMerge(u, v.subs, cmds);
  }

  lemma {:induction false} CommandRulesEffect(tb: Table, hash: string -> string, v: User, u: User, cmds: seq<Command>)
    requires forall i :: 0 <= i < |cmds| ==> Knows(tb, cmds[i]) && cmds[i].id !in v.subs
    requires DistinctIds(cmds)
    requires forall id :: id in u.subs ==> id !in u.bits && SubsOk(u.subs[id])
    ensures var r := EffectAll(tb, hash, v, CommandRules(u, v.bits, cmds));
            && r.Done? && Core(r.u) == Core(WithCommands(v, u, cmds))
            && (Ids(cmds) <= u.bits ==> r.u.allcommands == v.allcommands)
    decreases |cmds|
  {
    hide Effect;
    hide SubsOk;
    hide Knows;
    hide RulesFor;
    hide Ids;
    hide EffectAll;
    hide WithCommands;
    hide Core;
    hide FixBit;
    if cmds == [] {
      NoCommandsLeft(v, u);
      NoRules(tb, hash, v);
    } else {
      var c, rest := cmds[0], cmds[1..];
      RulesForEffect(tb, hash, v, u, c);
      var w := EffectAll(tb, hash, v, RulesFor(u, v.bits, c)).u;
      CoreFields(w, WithCommand(v, u, c.id));
      assert forall i :: 0 <= i < |rest| ==> rest[i] == cmds[i + 1];
      CommandRulesEffect(tb, hash, w, u, rest);
      EffectAllConcat(tb, hash, v, RulesFor(u, v.bits, c), CommandRules(u, w.bits, rest));
      IdsCons(cmds);
      WithOneMore(v, w, u, cmds);
    }
  }

  lemma NoCommandsLeft(v: User, u: User)
    ensures WithCommands(v, u, []) == v
  {
    NoSubs(u, v.subs);
  }

  lemma CoreFields(a: User, b: User)
    requires Core(a) == Core(b)
    ensures a == b.(allcommands := a.allcommands)
  {
  }

  lemma NoSubs(u: User, m: map<nat, seq<string>>)
    ensures m + SubsOf(u, []) == m
  {
  }

  lemma SubsMerge(u: User, m: map<nat, seq<string>>, cmds: seq<Command>)
    requires cmds != []
    ensures var id := cmds[0].id;
            (if id in u.subs then m[id := u.subs[id]] else m) + SubsOf(u, cmds[1..]) == m + SubsOf(u, cmds)
  {
    IdsCons(cmds);
  }

  lemma IdsCons(cmds: seq<Command>)
    requires cmds != []
    ensures Ids(cmds) == {cmds[0].id} + Ids(cmds[1..])
  {
    assert cmds == [cmds[0]] + cmds[1..];
  }

  lemma TableKnows(tb: Table)
    requires TableOk(tb)
    ensures DistinctIds(tb.commands)
    ensures forall i :: 0 <= i < |tb.commands| ==> Knows(tb, tb.commands[i])
  {
    forall i | 0 <= i < |tb.commands| ensures Knows(tb, tb.commands[i]) {
      LookupFinds(tb.commands, i);
    }
  }

  /** The described command rules, applied to any user, rebuild exactly the bits and the
      subcommands; ALLCOMMANDS comes out as "all bits are set". */
  lemma CommandsRebuilt(tb: Table, hash: string -> string, u: User, v: User)
    requires TableOk(tb) && CommandsOk(tb, u)
    ensures var r := EffectAll(tb, hash, v, DescribeCommands(tb, u));
            && r.Done?
            && Core(r.u) == Core(v.(bits := u.bits, subs := u.subs))
            && (u.bits == AllBits(tb) ==> r.u.allcommands)
  {
    hide Effect;
    hide TableOk;
    hide SubsOk;
    hide CommandRules;
    hide CategoryRules;
    hide EffectAll;
    hide OutsideUniform;
    hide Ids;
    hide FinalBits;
    hide CategoryBits;
    IdsInRange(tb);
    var cmds := CommandRules(u, GuessBits(tb, u), tb.commands);
    var head := [StartRule(tb, u)] + CategoryRules(tb, u, tb.categories, Additive(tb, u));
    GuessEffect(tb, hash, u, v);
    var v1 := EffectAll(tb, hash, v, head).u;
    TableKnows(tb);
    CommandRulesEffect(tb, hash, v1, u, tb.commands);
    EffectAllConcat(tb, hash, v, head, cmds);
    PanicIff(tb, u);
    SubsOfAll(tb, u);
  }

  /** The first rule and the category rules leave the guessed bits and no subcommands. */
  lemma GuessEffect(tb: Table, hash: string -> string, u: User, v: User)
    requires TableOk(tb)
    ensures var r := EffectAll(tb, hash, v, [StartRule(tb, u)] + CategoryRules(tb, u, tb.categories, Additive(tb, u)));
            && r.Done?
            && r.u == v.(bits := GuessBits(tb, u), subs := map[], allcommands := r.u.allcommands)
            && (u.bits == AllBits(tb) ==> r.u.allcommands)
  {
    hide TableOk;
    hide CategoryRules;
    hide EffectAll;
    hide CategoryBits;
    IdsInRange(tb);
    var start := StartRule(tb, u);
    var cats := CategoryRules(tb, u, tb.categories, Additive(tb, u));
    var v0 := v.(bits := StartBits(tb, u), subs := map[], allcommands := Reserved(tb) in u.bits);
    EffectOne(tb, hash, v, start);
    StartEffect(tb, hash, u, v);
    hide Effect;
    CategoryRulesEffect(tb, hash, u, v0, tb.categories, Additive(tb, u));
    EffectAllConcat(tb, hash, v, [start], cats);
    if u.bits == AllBits(tb) {
      NoCategoryWhenFull(tb, u);
      NoRules(tb, hash, v0);
    }
  }

  lemma StartEffect(tb: Table, hash: string -> string, u: User, v: User)
    requires tb.bits >= 1
    ensures Effect(tb, hash, v, StartRule(tb, u)) ==
            Done(v.(bits := StartBits(tb, u), subs := map[], allcommands := Reserved(tb) in u.bits))
  {
  }

  lemma NoRules(tb: Table, hash: string -> string, v: User)
    ensures EffectAll(tb, hash, v, []) == Done(v)
  {
  }

  lemma SubsOfAll(tb: Table, u: User)
    requires tb.bits >= 1 && CommandsOk(tb, u)
    ensures map[] + SubsOf(u, tb.commands) == u.subs
  {
  }

  lemma {:induction false} NoneOff(cmds: seq<Command>, cat: string, bits: set<nat>)
    requires forall c :: c in cmds ==> c.id in bits
    ensures CountBits(cmds, cat, bits, false) == 0
  {
    if cmds == [] {
    } else {
      NoneOff(cmds[1..], cat, bits);
    }
  }

  lemma NoCategoryWhenFull(tb: Table, u: User)
    requires TableOk(tb) && u.bits == AllBits(tb)
    ensures CategoryRules(tb, u, tb.categories, Additive(tb, u)) == [] && !Additive(tb, u)
  {
    assert forall c :: c in tb.commands ==> c.id in u.bits by {
      forall c | c in tb.commands ensures c.id in u.bits {
        var i :| 0 <= i < |tb.commands| && tb.commands[i] == c;
      }
    }
    NoCategories(tb, u, tb.categories);
  }

  lemma {:induction false} NoCategories(tb: Table, u: User, cats: seq<string>)
    requires forall c :: c in tb.commands ==> c.id in u.bits
    ensures CategoryRules(tb, u, cats, false) == []
    decreases |cats|
  {
    if cats == [] {
    } else {
      NoneOff(tb.commands, cats[0], u.bits);
      NoCategories(tb, u, cats[1..]);
    }
  }

  // ----- flags, passwords and patterns --------------------------------------

  lemma {:induction false} HashRulesEffect(tb: Table, hash: string -> string, v: User, hs: seq<string>, k: nat)
    requires NoDuplicates(hs) && k <= |hs| && v.passwords == hs[..k]
    requires forall i :: 0 <= i < |hs| ==> ValidHash(hs[i])
    ensures EffectAll(tb, hash, v, HashRules(hs[k..])) ==
            Done(v.(passwords := hs, nopass := v.nopass && k == |hs|))
    decreases |hs| - k
  {
    hide ValidHash;
    if k == |hs| {
      assert hs[..k] == hs && hs[k..] == [];
    } else {
      assert hs[k..][1..] == hs[k + 1..];
      assert hs[k] !in hs[..k] && hs[..k] + [hs[k]] == hs[..k + 1];
      HashRulesEffect(tb, hash, v.(passwords := hs[..k + 1], nopass := false), hs, k + 1);
    }
  }

  lemma {:induction false} PatternRulesEffect(tb: Table, hash: string -> string, v: User, ps: seq<string>, k: nat)
    requires NoDuplicates(ps) && k <= |ps| && v.patterns == ps[..k] && !v.allkeys
    requires forall i :: 0 <= i < |ps| ==> !HasSpaces(ps[i])
    ensures EffectAll(tb, hash, v, PatternRules(ps[k..])) == Done(v.(patterns := ps))
    decreases |ps| - k
  {
    hide HasSpaces;
    if k == |ps| {
      assert ps[..k] == ps && ps[k..] == [];
    } else {
      assert ps[k..][1..] == ps[k + 1..];
      assert ps[k] !in ps[..k] && ps[..k] + [ps[k]] == ps[..k + 1];
      PatternRulesEffect(tb, hash, v.(patterns := ps[..k + 1]), ps, k + 1);
    }
  }

  /** A fresh user after the flag rules. */
  lemma FlagRulesEffect(tb: Table, hash: string -> string, u: User)
    requires u.enabled != u.disabled
    ensures EffectAll(tb, hash, FRESH_USER, FlagRules(u)) ==
            Done(FRESH_USER.(enabled := u.enabled, disabled := u.disabled, nopass := u.nopass))
  {
    var onoff := if u.enabled then SwitchOn else SwitchOff;
    var v := FRESH_USER.(enabled := u.enabled, disabled := u.disabled);
    assert Effect(tb, hash, FRESH_USER, onoff) == Done(v);
    EffectOne(tb, hash, FRESH_USER, onoff);
    if u.nopass {
      assert FlagRules(u) == [onoff] + [NoPass];
      EffectAllConcat(tb, hash, FRESH_USER, [onoff], [NoPass]);
      EffectOne(tb, hash, v, NoPass);
    } else {
      assert FlagRules(u) == [onoff];
    }
  }

  lemma RestRebuilt(tb: Table, hash: string -> string, u: User)
    requires ListsOk(u)
    ensures EffectAll(tb, hash, FRESH_USER, DescribeRest(u)) ==
            Done(u.(bits := {}, subs := map[], allcommands := false))
  {
    hide HashRules;
    hide PatternRules;
    hide FlagRules;
    hide ValidHash;
    hide HasSpaces;
    hide EffectAll;
    var keys := if u.allkeys then [AllKeys] else PatternRules(u.patterns);
    var v1 := FRESH_USER.(enabled := u.enabled, disabled := u.disabled, nopass := u.nopass);
    var v2 := v1.(passwords := u.passwords);
    FlagRulesEffect(tb, hash, u);
    HashRulesEffect(tb, hash, v1, u.passwords, 0);
    assert u.passwords[0..] == u.passwords && u.patterns[0..] == u.patterns;
    if u.allkeys {
      EffectOne(tb, hash, v2, AllKeys);
    } else {
      PatternRulesEffect(tb, hash, v2, u.patterns, 0);
    }
    EffectAllConcat(tb, hash, FRESH_USER, FlagRules(u), HashRules(u.passwords));
    EffectAllConcat(tb, hash, FRESH_USER, FlagRules(u) + HashRules(u.passwords), keys);
  }

  // ----- every printed rule is readable -------------------------------------

  lemma NotAKeyword(low: string)
    requires low != "" && low[0] in {'+', '-', '#', '~'} && low != "~*" && low != "+@all" && low != "-@all"
    ensures Keyword(low) == None
  {
  }

  lemma ReadWord(word: string, r: Rule)
    requires word != "" && '\0' !in word && Lower(word) == word && Keyword(word) == Some(r)
    ensures ParseRule(word) == r
  {
    hide Lower;
    hide Keyword;
    hide ParseMarked;
    CStrWhole(word);
  }

  lemma KeywordTable()
    ensures Keyword("on") == Some(SwitchOn) && Keyword("off") == Some(SwitchOff) && Keyword("nopass") == Some(NoPass)
    ensures Keyword("~*") == Some(AllKeys) && Keyword("+@all") == Some(AllCommands) && Keyword("-@all") == Some(NoCommands)
  {
  }

  lemma LowerWords()
    ensures Lower("on") == "on" && Lower("off") == "off" && Lower("nopass") == "nopass"
    ensures Lower("~*") == "~*" && Lower("+@all") == "+@all" && Lower("-@all") == "-@all"
  {
    hide Lower;
    LowerIsSame("on");
    LowerIsSame("off");
    LowerIsSame("nopass");
    LowerIsSame("~*");
    LowerIsSame("+@all");
    LowerIsSame("-@all");
  }

  lemma LowerIsSame(s: string)
    requires forall i :: 0 <= i < |s| ==> !('A' <= s[i] <= 'Z')
    ensures Lower(s) == s
  {
  }

  lemma ReadableWords()
    ensures Readable(SwitchOn) && Readable(SwitchOff) && Readable(NoPass) && Readable(AllKeys)
    ensures Readable(AllCommands) && Readable(NoCommands)
  {
    hide ParseRule;
    hide Lower;
    hide Keyword;
    LowerWords();
    KeywordTable();
    ReadWord("on", SwitchOn);
    ReadWord("off", SwitchOff);
    ReadWord("nopass", NoPass);
    ReadWord("~*", AllKeys);
    ReadWord("+@all", AllCommands);
    ReadWord("-@all", NoCommands);
  }

  /** A marked token that is no keyword is read by its marks. */
  lemma ReadMarked(a: string)
    requires a != "" && '\0' !in a && a[0] in {'+', '-', '#', '~'}
    requires Lower(a) != "~*" && Lower(a) != "+@all" && Lower(a) != "-@all"
    ensures ParseRule(a) == ParseMarked(a, a)
  {
    hide Keyword;
    hide ParseMarked;
    CStrWhole(a);
    assert Lower(a)[0] == a[0];
    NotAKeyword(Lower(a));
  }

  lemma LowerKeepsMarks(c: char)
    ensures LowerChar(c) == '@' ==> c == '@'
    ensures LowerChar(c) == '~' ==> c == '~'
  {
  }

  lemma SecondCharIsNoAt(a: string)
    requires a != "" && a[0] != '~' && (|a| >= 2 ==> a[1] != '@')
    ensures Lower(a) != "~*" && Lower(a) != "+@all" && Lower(a) != "-@all"
  {
    hide LowerChar;
    LowerKeepsMarks(a[0]);
    if |a| >= 2 { LowerKeepsMarks(a[1]); }
    var l := Lower(a);
    assert l[0] != '~' && (|a| >= 2 ==> l[1] != '@');
    hide Lower;
  }

  lemma ReadableRemove(n: string)
    requires Removable(n)
    ensures Readable(RemoveCommand(n))
  {
    hide ParseRule;
    hide Lower;
    hide Find;
    var b := "-" + n;
    SecondCharIsNoAt(b);
    ReadMarked(b);
    assert b[1..] == n;
  }

  lemma ReadableAdd(n: string)
    requires Addable(n)
    ensures Readable(AddCommand(n))
  {
    hide ParseRule;
    hide Lower;
    hide Find;
    var a := "+" + n;
    SecondCharIsNoAt(a);
    ReadMarked(a);
    FindIn(a, '|', "");
    assert a[1..] == n;
  }

  lemma ReadableSub(n: string, sub: string)
    requires Addable(n) && '\0' !in sub
    ensures Readable(AddSub(n, sub))
  {
    hide ParseRule;
    hide Lower;
    hide Find;
    var a := "+" + n;
    var c := a + ['|'] + sub;
    SecondCharIsNoAt(c);
    ReadMarked(c);
    FindIn(a, '|', sub);
    assert c[1..|a|] == n && c[|a| + 1..] == sub;
  }

  lemma CategoryIsNoKeyword(c: string, a: string)
    requires CategoryName(c) && (a == "+@" + c || a == "-@" + c)
    ensures Lower(a) != "~*" && Lower(a) != "+@all" && Lower(a) != "-@all"
  {
    assert Lower(a) == a by {
      assert forall i :: 0 <= i < |c| ==> a[i + 2] == c[i] && LowerChar(c[i]) == c[i];
    }
    assert a[2..] == c && "+@all"[2..] == "all" && "-@all"[2..] == "all";
  }

  lemma ReadableCategory(c: string)
    requires CategoryName(c)
    ensures Readable(AddCategory(c)) && Readable(RemoveCategory(c))
  {
    hide ParseRule;
    hide Lower;
    hide Find;
    var a, b := "+@" + c, "-@" + c;
    CategoryIsNoKeyword(c, a);
    CategoryIsNoKeyword(c, b);
    ReadMarked(a);
    ReadMarked(b);
    assert a[2..] == c && b[2..] == c;
  }

  lemma ReadableHash(h: string)
    requires ValidHash(h)
    ensures Readable(AddHash(h))
  {
    hide ParseRule;
    var a := "#" + h;
    assert '\0' !in a;
    assert Lower(a)[0] == '#';
    hide Lower;
    ReadMarked(a);
    assert a[1..] == h;
  }

  lemma ReadablePattern(p: string)
    requires !HasSpaces(p) && p != "*"
    ensures Readable(AddPattern(p))
  {
    hide ParseRule;
    var a := "~" + p;
    assert '\0' !in a;
    assert Lower(a)[0] == '~' && (|p| == 1 ==> Lower(a)[1] == LowerChar(p[0]));
    assert |p| == 1 && p[0] == '*' ==> p == "*";
    hide Lower;
    ReadMarked(a);
    assert a[1..] == p;
  }

  predicate AllReadable(rules: seq<Rule>) {
    forall i :: 0 <= i < |rules| ==> Readable(rules[i])
  }

  lemma {:induction false} CategoryRulesReadable(tb: Table, u: User, cats: seq<string>, additive: bool)
    requires forall c :: c in cats ==> CategoryName(c)
    ensures AllReadable(CategoryRules(tb, u, cats, additive))
    decreases |cats|
  {
    hide Readable;
    hide WorthIt;
    hide CategoryName;
    if cats == [] {
    } else {
      ReadableCategory(cats[0]);
      CategoryRulesReadable(tb, u, cats[1..], additive);
    }
  }

  lemma {:induction false} SubRulesReadable(n: string, subs: seq<string>)
    requires Addable(n) && forall i :: 0 <= i < |subs| ==> '\0' !in subs[i]
    ensures AllReadable(SubRules(n, subs))
    decreases |subs|
  {
    hide Readable;
    hide Addable;
    if subs == [] {
    } else {
      ReadableSub(n, subs[0]);
      SubRulesReadable(n, subs[1..]);
    }
  }

  /** Every rule of the final pass belongs to a command, and only the guess at its own bit counts. */
  lemma {:induction false} CommandRulesFrom(u: User, fake: set<nat>, cmds: seq<Command>, k: nat) returns (c: Command)
    requires DistinctIds(cmds) && k < |CommandRules(u, fake, cmds)|
    ensures c in cmds && CommandRules(u, fake, cmds)[k] in RulesFor(u, fake, c)
    decreases |cmds|
  {
    hide RulesFor;
    var here := RulesFor(u, fake, cmds[0]);
    if k < |here| {
      c := cmds[0];
    } else {
      var next := FixBit(u, fake, cmds[0].id);
      c := CommandRulesFrom(u, next, cmds[1..], k - |here|);
      SameGuess(u, next, fake, c);
    }
  }

  lemma SameGuess(u: User, a: set<nat>, b: set<nat>, c: Command)
    requires c.id in a <==> c.id in b
    ensures RulesFor(u, a, c) == RulesFor(u, b, c)
  {
  }

  /** Category rules skip commands of modules, so the guess at their bits is the reserved bit. */
  lemma ModuleGuess(tb: Table, u: User, c: Command)
    requires TableOk(tb) && c in tb.commands && c.isModule
    ensures c.id in GuessBits(tb, u) <==> Reserved(tb) in u.bits
  {
    hide CategoryIds;
    hide CategoryBits;
    forall cat ensures c.id !in CategoryIds(tb.commands, cat) {
      ModuleInNoCategory(tb, c, cat);
    }
    CategoryBitsAt(tb, u, tb.categories, Additive(tb, u), StartBits(tb, u), c.id);
    IdsInRange(tb);
    hide TableOk;
  }

  /** Commands that a rule cannot name are printed only as -name, and only if that can be read. */
  lemma RulesForReadable(tb: Table, u: User, c: Command)
    requires TableOk(tb) && c in tb.commands && OddOk(tb, u, c) && (c.id in u.subs ==> SubsOk(u.subs[c.id]))
    ensures AllReadable(RulesFor(u, GuessBits(tb, u), c))
  {
    hide Readable;
    hide Addable;
    hide Removable;
    hide GuessBits;
    OddIsModule(tb, c);
    hide TableOk;
    if !Addable(c.name) { ModuleGuess(tb, u, c); }
    if Removable(c.name) { ReadableRemove(c.name); }
    if Addable(c.name) {
      ReadableAdd(c.name);
      if c.id in u.subs { SubRulesReadable(c.name, u.subs[c.id]); }
    }
  }

  lemma CommandRulesReadable(tb: Table, u: User)
    requires TableOk(tb) && UserOk(tb, u)
    ensures AllReadable(CommandRules(u, GuessBits(tb, u), tb.commands))
  {
    hide Readable;
    hide RulesFor;
    hide CommandRules;
    hide SubsOk;
    hide ListsOk;
    hide OddOk;
    hide OutsideUniform;
    TableKnows(tb);
    hide TableOk;
    var rules := CommandRules(u, GuessBits(tb, u), tb.commands);
    forall k | 0 <= k < |rules| ensures Readable(rules[k]) {
      var c := CommandRulesFrom(u, GuessBits(tb, u), tb.commands, k);
      RulesForReadable(tb, u, c);
      var i :| 0 <= i < |RulesFor(u, GuessBits(tb, u), c)| && RulesFor(u, GuessBits(tb, u), c)[i] == rules[k];
    }
  }

  lemma {:induction false} ListRulesReadable(hs: seq<string>, ps: seq<string>)
    requires forall i :: 0 <= i < |hs| ==> ValidHash(hs[i])
    requires forall i :: 0 <= i < |ps| ==> !HasSpaces(ps[i]) && ps[i] != "*"
    ensures AllReadable(HashRules(hs)) && AllReadable(PatternRules(ps))
    decreases |hs| + |ps|
  {
    hide Readable;
    hide ValidHash;
    hide HasSpaces;
    if hs != [] {
      ReadableHash(hs[0]);
      ListRulesReadable(hs[1..], ps);
    } else if ps != [] {
      ReadablePattern(ps[0]);
      ListRulesReadable(hs, ps[1..]);
    }
  }

  lemma DescriptionReadable(tb: Table, u: User)
    requires TableOk(tb) && UserOk(tb, u)
    ensures AllReadable(DescribeCommands(tb, u)) && AllReadable(Describe(tb, u))
  {
    hide Readable;
    hide CategoryRules;
    hide CommandRules;
    hide HashRules;
    hide PatternRules;
    hide SubsOk;
    hide NameOk;
    hide OddOk;
    hide CategoryName;
    hide ValidHash;
    hide HasSpaces;
    ReadableWords();
    CategoryRulesReadable(tb, u, tb.categories, Additive(tb, u));
    CommandRulesReadable(tb, u);
    ListRulesReadable(u.passwords, u.patterns);
  }

  // ----- the theorems -------------------------------------------------------

  /** For every user that satisfies the invariant, the tokens of the describer applied to a
      zeroed user all succeed and rebuild exactly its bitmap and subcommands, and the describer
      does not panic. */
  lemma CommandTokensRebuild(tb: Table, hash: string -> string, u: User)
    requires TableOk(tb) && UserOk(tb, u)
    ensures !Panics(tb, u)
    ensures var r := SetAll(tb, hash, ZERO, Tokens(DescribeCommands(tb, u)));
            r.Done? && r.u.bits == u.bits && r.u.subs == u.subs
  {
    hide DescribeCommands;
    hide TableOk;
    hide ListsOk;
    hide Readable;
    IdsInRange(tb);
    PanicIff(tb, u);
    DescriptionReadable(tb, u);
    ReadableTokens(tb, hash, ZERO, DescribeCommands(tb, u));
    CommandsRebuilt(tb, hash, u, ZERO);
    CoreFields(EffectAll(tb, hash, ZERO, DescribeCommands(tb, u)).u, ZERO.(bits := u.bits, subs := u.subs));
  }

  lemma {:induction false} EffectAllKeepsCommands(tb: Table, hash: string -> string, u: User, ops: seq<string>)
    requires TableOk(tb) && HashOk(hash) && UserOk(tb, u) && SetAll(tb, hash, u, ops).Done?
    ensures UserOk(tb, SetAll(tb, hash, u, ops).u)
    decreases |ops|
  {
    hide SetUser;
    hide UserOk;
    hide TableOk;
    IdsInRange(tb);
    if ops == [] {
    } else {
      SetUserKeepsOk(tb, hash, u, ops[0]);
      EffectAllKeepsCommands(tb, hash, SetUser(tb, hash, u, ops[0]).u, ops[1..]);
    }
  }

  /** Applying the tokens of ACLDescribeUser to a fresh user succeeds and gives the same user;
      only the ALLCOMMANDS flag may differ, and then it is set because all bits are. */
  lemma DescriptionRebuildsUser(tb: Table, hash: string -> string, u: User)
    requires TableOk(tb) && HashOk(hash) && UserOk(tb, u)
    ensures SetAll(tb, hash, FRESH_USER, Tokens(Describe(tb, u))) ==
            Done(u.(allcommands := u.bits == AllBits(tb)))
  {
    hide TableOk;
    hide ListsOk;
    hide Readable;
    hide DescribeCommands;
    hide DescribeRest;
    hide EffectAll;
    hide SubsOk;
    hide OutsideUniform;
    IdsInRange(tb);
    var blank := u.(bits := {}, subs := map[], allcommands := false);
    DescriptionReadable(tb, u);
    ReadableTokens(tb, hash, FRESH_USER, Describe(tb, u));
    RestRebuilt(tb, hash, u);
    CommandsRebuilt(tb, hash, u, blank);
    EffectAllConcat(tb, hash, FRESH_USER, DescribeRest(u), DescribeCommands(tb, u));
    var v := EffectAll(tb, hash, blank, DescribeCommands(tb, u)).u;
    CoreFields(v, u);
    FreshOk(tb);
    EffectAllKeepsCommands(tb, hash, FRESH_USER, Tokens(Describe(tb, u)));
  }

  // ----- the same permissions -----------------------------------------------

  datatype Verdict = AclOk | DeniedCmd | DeniedKey(index: nat)

  /** A request: the id of the command, whether it is AUTH, its arguments, and the positions of
      its keys (none when the command has no keys). */
  datatype Request = Request(id: nat, isAuth: bool, argv: seq<string>, keys: seq<nat>)

  function FirstDenied(patterns: seq<string>, glob: (string, string) -> bool, argv: seq<string>, keys: seq<nat>): Verdict
    requires forall i :: 0 <= i < |keys| ==> keys[i] < |argv|
    decreases |keys|
  {
    if keys == [] then AclOk
    else if exists i :: 0 <= i < |patterns| && glob(patterns[i], argv[keys[0]])
    then FirstDenied(patterns, glob, argv, keys[1..])
    else DeniedKey(keys[0])
  }

  /** ACLCheckCommandPerm */
  function CheckPermission(u: User, glob: (string, string) -> bool, q: Request): Verdict
    requires forall i :: 0 <= i < |q.keys| ==> q.keys[i] < |q.argv|
  {
    if !u.allcommands && !q.isAuth && q.id !in u.bits &&
       !(|q.argv| >= 2 && q.id in u.subs && HasNoCase(u.subs[q.id], CStr(q.argv[1])))
    then DeniedCmd
    else if u.allkeys then AclOk
    else FirstDenied(u.patterns, glob, q.argv, q.keys)
  }

  /** A user rebuilt from its description answers every request as the original does. */
  lemma DescriptionKeepsPermissions(tb: Table, hash: string -> string, glob: (string, string) -> bool, u: User, q: Request)
    requires TableOk(tb) && HashOk(hash) && UserOk(tb, u) && q.id < tb.bits
    requires forall i :: 0 <= i < |q.keys| ==> q.keys[i] < |q.argv|
    ensures var r := SetAll(tb, hash, FRESH_USER, Tokens(Describe(tb, u)));
            r.Done? && CheckPermission(r.u, glob, q) == CheckPermission(u, glob, q)
  {
    hide Describe;
    hide FirstDenied;
    hide HasNoCase;
    hide ListsOk;
    hide SetAll;
    DescriptionRebuildsUser(tb, hash, u);
  }

  // ----- whole histories ----------------------------------------------------

  /** What happens to a user: rules (failing ones change nothing), and new commands. */
  datatype Step = Apply(op: string) | NewTable(tb: Table)

  function After(tb: Table, hash: string -> string, u: User, steps: seq<Step>): (Table, User)
    decreases |steps|
  {
    if steps == [] then (tb, u)
    else
      match steps[0]
      case Apply(op) =>
        var r := SetUser(tb, hash, u, op);
        After(tb, hash, if r.Done? then r.u else u, steps[1..])
      case NewTable(tb') => After(tb', hash, u, steps[1..])
  }

  predicate OnlyGrows(tb: Table, steps: seq<Step>)
    decreases |steps|
  {
    steps != [] ==>
      match steps[0]
      case Apply(op) => OnlyGrows(tb, steps[1..])
      case NewTable(tb') => TableOk(tb') && Grows(tb, tb') && OnlyGrows(tb', steps[1..])
  }

  lemma {:induction false} HistoryKeepsOk(tb: Table, hash: string -> string, u: User, steps: seq<Step>)
    requires TableOk(tb) && HashOk(hash) && UserOk(tb, u) && OnlyGrows(tb, steps)
    ensures var (tb', u') := After(tb, hash, u, steps); TableOk(tb') && UserOk(tb', u')
    decreases |steps|
  {
    hide SetUser;
    hide UserOk;
    hide TableOk;
    hide Grows;
    IdsInRange(tb);
    if steps == [] {
    } else {
      match steps[0]
      case Apply(op) =>
        var r := SetUser(tb, hash, u, op);
        if r.Done? { SetUserKeepsOk(tb, hash, u, op); }
        HistoryKeepsOk(tb, hash, if r.Done? then r.u else u, steps[1..]);
      case NewTable(tb') =>
        GrowthKeepsOk(tb, tb', u);
        HistoryKeepsOk(tb', hash, u, steps[1..]);
    }
  }

  /** Main theorem: whatever rules a user went through, and whatever commands were added
      meanwhile, in whatever order the table lists them from then on, describing it never panics
      and its description rebuilds it. */
  lemma PanicIsUnreachable(tb: Table, hash: string -> string, steps: seq<Step>)
    requires TableOk(tb) && HashOk(hash) && OnlyGrows(tb, steps)
    ensures var (tb', u) := After(tb, hash, FRESH_USER, steps);
            && TableOk(tb')
            && !Panics(tb', u)
            && SetAll(tb', hash, FRESH_USER, Tokens(Describe(tb', u))) == Done(u.(allcommands := u.bits == AllBits(tb')))
  {
    hide After;
    hide OnlyGrows;
    hide UserOk;
    hide Describe;
    hide TableOk;
    hide SetAll;
    FreshOk(tb);
    HistoryKeepsOk(tb, hash, FRESH_USER, steps);
    var (tb', u) := After(tb, hash, FRESH_USER, steps);
    IdsInRange(tb');
    CommandTokensRebuild(tb', hash, u);
    DescriptionRebuildsUser(tb', hash, u);
  }
}
