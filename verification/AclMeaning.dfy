/**
  What ACL rules mean: which commands, keys and passwords a user has after each rule, and what the
  permission check answers.
 */
module AclMeaning {
  import opened Text
  import opened AclRules
  import opened AclDescribe

  // ----- rights ---------------------------------------------------------------

  /** A subcommand is listed for a command, in any case. */
  predicate SubListed(u: User, id: nat, sub: string) {
    id in u.subs && exists i :: 0 <= i < |u.subs[id]| && Lower(u.subs[id][i]) == Lower(sub)
  }

  /** The user may run the command of the request. */
  predicate CommandAllowed(u: User, q: Request) {
    u.allcommands || q.isAuth || q.id in u.bits || (|q.argv| >= 2 && SubListed(u, q.id, CStr(q.argv[1])))
  }

  /** The user may touch the key. */
  predicate KeyAllowed(u: User, glob: (string, string) -> bool, key: string) {
    u.allkeys || exists i :: 0 <= i < |u.patterns| && glob(u.patterns[i], key)
  }

  /** ACLCheckUserCredentials, for a user that exists. */
  predicate CanLogin(u: User, hash: string -> string, password: string) {
    !u.disabled && (u.nopass || hash(password) in u.passwords)
  }

  predicate KeysInside(q: Request) {
    forall i :: 0 <= i < |q.keys| ==> q.keys[i] < |q.argv|
  }

  // ----- the verdict ------------------------------------------------------------

  lemma {:induction false} FirstDeniedMeans(u: User, glob: (string, string) -> bool, argv: seq<string>, keys: seq<nat>)
    requires !u.allkeys && forall i :: 0 <= i < |keys| ==> keys[i] < |argv|
    ensures match FirstDenied(u.patterns, glob, argv, keys)
            case AclOk => forall i :: 0 <= i < |keys| ==> KeyAllowed(u, glob, argv[keys[i]])
            case DeniedCmd => false
            case DeniedKey(k) =>
              exists j :: 0 <= j < |keys| && keys[j] == k && !KeyAllowed(u, glob, argv[k]) &&
                          forall i :: 0 <= i < j ==> KeyAllowed(u, glob, argv[keys[i]])
    decreases |keys|
  {
    if keys != [] {
      if KeyAllowed(u, glob, argv[keys[0]]) {
        FirstDeniedMeans(u, glob, argv, keys[1..]);
        hide KeyAllowed;
        var r := FirstDenied(u.patterns, glob, argv, keys[1..]);
        if r.DeniedKey? {
          var j :| 0 <= j < |keys| - 1 && keys[1..][j] == r.index && !KeyAllowed(u, glob, argv[r.index]) &&
                   forall i :: 0 <= i < j ==> KeyAllowed(u, glob, argv[keys[1..][i]]);
          assert keys[j + 1] == r.index;
          assert forall i :: 1 <= i < j + 1 ==> keys[i] == keys[1..][i - 1];
        } else {
          assert forall i :: 1 <= i < |keys| ==> keys[i] == keys[1..][i - 1];
        }
      } else {
        var j := 0;
        assert keys[j] == keys[0];
      }
    }
  }

  /** What ACLCheckCommandPerm answers: the command is denied exactly when the user may not run it;
      otherwise the key named is the first one that the user may not touch; and the request passes
      exactly when the command and all keys are allowed. */
  lemma PermissionMeans(u: User, glob: (string, string) -> bool, q: Request)
    requires KeysInside(q)
    ensures match CheckPermission(u, glob, q)
            case AclOk => CommandAllowed(u, q) && forall i :: 0 <= i < |q.keys| ==> KeyAllowed(u, glob, q.argv[q.keys[i]])
            case DeniedCmd => !CommandAllowed(u, q)
            case DeniedKey(k) =>
              CommandAllowed(u, q) &&
              exists j :: 0 <= j < |q.keys| && q.keys[j] == k && !KeyAllowed(u, glob, q.argv[k]) &&
                          forall i :: 0 <= i < j ==> KeyAllowed(u, glob, q.argv[q.keys[i]])
  {
    hide FirstDenied;
    hide Lower;
    if CommandAllowed(u, q) && !u.allkeys { FirstDeniedMeans(u, glob, q.argv, q.keys); }
  }

  /** The same as an equivalence: the three cases exclude each other. */
  lemma PermittedIff(u: User, glob: (string, string) -> bool, q: Request)
    requires KeysInside(q)
    ensures CheckPermission(u, glob, q) == AclOk <==>
            CommandAllowed(u, q) && forall i :: 0 <= i < |q.keys| ==> KeyAllowed(u, glob, q.argv[q.keys[i]])
    ensures CheckPermission(u, glob, q) == DeniedCmd <==> !CommandAllowed(u, q)
  {
    hide CheckPermission;
    hide CommandAllowed;
    hide KeyAllowed;
    PermissionMeans(u, glob, q);
  }

  // ----- which rules are accepted -------------------------------------------------

  predicate HasCommand(tb: Table, name: string) {
    exists i :: 0 <= i < |tb.commands| && Lower(tb.commands[i].name) == Lower(name)
  }

  lemma {:induction false} LookupIff(cmds: seq<Command>, name: string)
    ensures Lookup(cmds, name).Some? <==> exists i :: 0 <= i < |cmds| && Lower(cmds[i].name) == Lower(name)
  {
    hide Lower;
    if cmds != [] {
      LookupIff(cmds[1..], name);
      if i :| 0 <= i < |cmds| && Lower(cmds[i].name) == Lower(name) {
        if i > 0 { assert cmds[1..][i - 1] == cmds[i]; }
      }
    }
  }

  lemma {:induction false} FindCategoryIff(cats: seq<string>, name: string)
    ensures FindCategory(cats, name).Some? <==> Lower(name) in cats
  {
    hide Lower;
    if cats != [] {
      FindCategoryIff(cats[1..], name);
      assert cats == [cats[0]] + cats[1..];
    }
  }

  /** The error of a rule, if it has one. */
  ghost function Refusal(tb: Table, hash: string -> string, u: User, r: Rule): Option<Errno> {
    match r
    case AddHash(h) => if ValidHash(h) then None else Some(EBADMSG)
    case DelHash(h) => if !ValidHash(h) then Some(EBADMSG) else if h in u.passwords then None else Some(ENODEV)
    case DelPass(p) => if hash(p) in u.passwords then None else Some(ENODEV)
    case AddPattern(p) => if u.allkeys then Some(EEXIST) else if HasSpaces(p) then Some(EINVAL) else None
    case AddCommand(n) => if HasCommand(tb, n) then None else Some(ENOENT)
    case RemoveCommand(n) => if HasCommand(tb, n) then None else Some(ENOENT)
    case AddSub(n, sub) =>
      if !HasCommand(tb, n) then Some(ENOENT) else if sub == "" then Some(EINVAL)
      else if exists c :: c in tb.commands && Lower(c.name) == Lower(n) && c.id in u.bits then Some(EBUSY)
      else None
    case AddCategory(n) => if Lower(n) in tb.categories then None else Some(ENOENT)
    case RemoveCategory(n) => if Lower(n) in tb.categories then None else Some(ENOENT)
    case Unknown => Some(EINVAL)
    case _ => None
  }

  lemma RefusedSub(tb: Table, hash: string -> string, u: User, n: string, sub: string)
    requires TableOk(tb)
    ensures var r := Effect(tb, hash, u, AddSub(n, sub));
            Refusal(tb, hash, u, AddSub(n, sub)) == if r.Failed? then Some(r.errno) else None
  {
    hide HasNoCase;
    hide Lower;
    LookupIff(tb.commands, n);
    var d := Lookup(tb.commands, n);
    if d.Some? {
      forall c | c in tb.commands && Lower(c.name) == Lower(n) ensures c == d.value {
        NameFinds(tb, c, n);
      }
    }
  }

  /** Exactly which rules fail, and with which error; a rule that does not fail is done. */
  lemma RefusedIff(tb: Table, hash: string -> string, u: User, r: Rule)
    requires TableOk(tb)
    ensures var e := Effect(tb, hash, u, r);
            Refusal(tb, hash, u, r) == if e.Failed? then Some(e.errno) else None
  {
    hide TableOk;
    hide ValidHash;
    hide HasSpaces;
    hide Lower;
    hide Lookup;
    hide FindCategory;
    hide SetBit;
    hide SetBits;
    hide DropSubs;
    hide AddSubcommand;
    hide AllBits;
    hide AddNew;
    hide Remove;
    match r
    case AddSub(n, sub) => RefusedSub(tb, hash, u, n, sub);
    case AddCommand(n) => LookupIff(tb.commands, n);
    case RemoveCommand(n) => LookupIff(tb.commands, n);
    case AddCategory(n) => FindCategoryIff(tb.categories, n);
    case RemoveCategory(n) => FindCategoryIff(tb.categories, n);
    case _ =>
  }

  // ----- keys ---------------------------------------------------------------------

  lemma PatternAdded(u: User, v: User, glob: (string, string) -> bool, p: string, key: string)
    requires !u.allkeys && v == u.(patterns := AddNew(u.patterns, p))
    ensures KeyAllowed(v, glob, key) <==> KeyAllowed(u, glob, key) || glob(p, key)
  {
    if KeyAllowed(u, glob, key) {
      var i :| 0 <= i < |u.patterns| && glob(u.patterns[i], key);
      assert v.patterns[i] == u.patterns[i];
    } else if glob(p, key) {
      var i :| 0 <= i < |v.patterns| && v.patterns[i] == p;
    }
  }

  predicate IsKeyRule(r: Rule) {
    r.AllKeys? || r.ResetKeys? || r.Reset? || r.AddPattern?
  }

  lemma OthersKeepKeys(tb: Table, hash: string -> string, u: User, r: Rule)
    requires Effect(tb, hash, u, r).Done? && !IsKeyRule(r)
    ensures var v := Effect(tb, hash, u, r).u; v.allkeys == u.allkeys && v.patterns == u.patterns
  {
    hide SetBits;
    hide SetBit;
    hide DropSubs;
    hide AddSubcommand;
    hide Lookup;
    hide FindCategory;
    hide ValidHash;
    hide HasSpaces;
    hide AllBits;
    hide AddNew;
    hide Remove;
    if IsCommandRule(r) { CommandRuleRest(tb, hash, u, r); }
  }

  /** The keys a user may touch after a rule. */
  lemma KeysAfter(tb: Table, hash: string -> string, glob: (string, string) -> bool, u: User, r: Rule, key: string)
    requires Effect(tb, hash, u, r).Done?
    ensures KeyAllowed(Effect(tb, hash, u, r).u, glob, key) <==>
            match r
            case AllKeys => true
            case ResetKeys => false
            case Reset => false
            case AddPattern(p) => KeyAllowed(u, glob, key) || glob(p, key)
            case _ => KeyAllowed(u, glob, key)
  {
    hide HasSpaces;
    hide AddNew;
    if r.AddPattern? {
      PatternAdded(u, Effect(tb, hash, u, r).u, glob, r.text, key);
    } else if !IsKeyRule(r) {
      OthersKeepKeys(tb, hash, u, r);
    }
  }

  // ----- logging in -----------------------------------------------------------------

  lemma {:induction false} RemoveOne(xs: seq<string>, x: string, y: string)
    requires NoDuplicates(xs)
    ensures y in Remove(xs, x) <==> y in xs && y != x
  {
    if xs != [] {
      RemoveOne(xs[1..], x, y);
      assert xs == [xs[0]] + xs[1..];
      if xs[0] == x { assert x !in xs[1..]; }
    }
  }

  /** The hashes a user has after a rule. */
  lemma PasswordsAfter(tb: Table, hash: string -> string, u: User, r: Rule, h: string)
    requires Effect(tb, hash, u, r).Done? && NoDuplicates(u.passwords)
    ensures h in Effect(tb, hash, u, r).u.passwords <==>
            match r
            case AddPass(p) => h in u.passwords || h == hash(p)
            case AddHash(p) => h in u.passwords || h == p
            case DelPass(p) => h in u.passwords && h != hash(p)
            case DelHash(p) => h in u.passwords && h != p
            case NoPass => false
            case ResetPass => false
            case Reset => false
            case _ => h in u.passwords
  {
    hide SetBits;
    hide SetBit;
    hide DropSubs;
    hide AddSubcommand;
    hide Lookup;
    hide FindCategory;
    hide ValidHash;
    hide HasSpaces;
    hide AllBits;
    hide Remove;
    hide NoDuplicates;
    if IsCommandRule(r) { CommandRuleRest(tb, hash, u, r); }
    if r.DelPass? { RemoveOne(u.passwords, hash(r.text), h); }
    if r.DelHash? { RemoveOne(u.passwords, r.text, h); }
  }

  /** The two flags that matter for logging in, after a rule. */
  lemma FlagsAfter(tb: Table, hash: string -> string, u: User, r: Rule)
    requires Effect(tb, hash, u, r).Done?
    ensures var v := Effect(tb, hash, u, r).u;
            && (v.nopass <==> if r.NoPass? then true
                              else if r.ResetPass? || r.Reset? || r.AddPass? || r.AddHash? then false else u.nopass)
            && (v.disabled <==> if r.SwitchOff? || r.Reset? then true else if r.SwitchOn? then false else u.disabled)
            && (v.enabled <==> if r.SwitchOff? || r.Reset? then false else if r.SwitchOn? then true else u.enabled)
  {
    hide SetBits;
    hide SetBit;
    hide DropSubs;
    hide AddSubcommand;
    hide Lookup;
    hide FindCategory;
    hide ValidHash;
    hide HasSpaces;
    hide AllBits;
    hide AddNew;
    hide Remove;
    if IsCommandRule(r) { CommandRuleRest(tb, hash, u, r); }
  }

  // ----- commands ---------------------------------------------------------------------

  /** What a rule says about the bit of a command: give it, take it away, or nothing. */
  function Grant(tb: Table, r: Rule, c: Command): Option<bool> {
    match r
    case AllCommands => Some(true)
    case NoCommands => Some(false)
    case Reset => Some(false)
    case AddCommand(n) => if Lower(n) == Lower(c.name) then Some(true) else None
    case RemoveCommand(n) => if Lower(n) == Lower(c.name) then Some(false) else None
    case AddCategory(n) => if !c.isModule && Lower(n) in c.categories then Some(true) else None
    case RemoveCategory(n) => if !c.isModule && Lower(n) in c.categories then Some(false) else None
    case _ => None
  }

  lemma InCategoryIff(tb: Table, c: Command, cat: string)
    requires TableOk(tb) && c in tb.commands
    ensures c.id in CategoryIds(tb.commands, cat) <==> !c.isModule && cat in c.categories
  {
    hide TableOk;
    if c.id in CategoryIds(tb.commands, cat) {
      var d :| d in tb.commands && !d.isModule && cat in d.categories && d.id == c.id;
      SameId(tb, c, d);
    }
  }

  lemma FoundIff(tb: Table, c: Command, n: string)
    requires TableOk(tb) && c in tb.commands && Lookup(tb.commands, n).Some?
    ensures Lookup(tb.commands, n).value.id == c.id <==> Lower(n) == Lower(c.name)
  {
    hide TableOk;
    hide Lower;
    var d := Lookup(tb.commands, n).value;
    if d.id == c.id { SameId(tb, c, d); }
    if Lower(n) == Lower(c.name) { NameFinds(tb, c, n); }
  }

  lemma BitsAt(tb: Table, u: User, ids: set<nat>, on: bool, id: nat)
    requires id < tb.bits
    ensures id in SetBits(tb, u, ids, on).bits <==> if id in ids then on else id in u.bits
    ensures id in SetBits(tb, u, ids, on).subs <==> id in u.subs && id !in ids
    ensures id in SetBits(tb, u, ids, on).subs ==> SetBits(tb, u, ids, on).subs[id] == u.subs[id]
  {
  }

  lemma AddSubBits(tb: Table, u: User, at: nat, sub: string, id: nat)
    requires at !in u.bits
    ensures id in SetBit(tb, AddSubcommand(u, at, sub), at, false).bits <==> id in u.bits
  {
    hide HasNoCase;
  }

  lemma CommandBitAfter(tb: Table, hash: string -> string, u: User, r: Rule, c: Command)
    requires TableOk(tb) && c in tb.commands && IsCommandRule(r) && Effect(tb, hash, u, r).Done?
    ensures c.id in Effect(tb, hash, u, r).u.bits <==>
            if Grant(tb, r, c).Some? then Grant(tb, r, c).value else c.id in u.bits
  {
    hide SetBits;
    hide SetBit;
    hide DropSubs;
    hide AddSubcommand;
    hide Lower;
    IdsInRange(tb);
    assert c.id in Ids(tb.commands);
    hide TableOk;
    hide Ids;
    hide CategoryIds;
    match r
    case AddCommand(n) =>
      var id := Lookup(tb.commands, n).value.id;
      OneBit(tb, u, id, true);
      BitsAt(tb, u, {id}, true, c.id);
      FoundIff(tb, c, n);
    case RemoveCommand(n) =>
      var id := Lookup(tb.commands, n).value.id;
      OneBit(tb, u, id, false);
      BitsAt(tb, u, {id}, false, c.id);
      FoundIff(tb, c, n);
    case AddSub(n, sub) => AddSubBits(tb, u, Lookup(tb.commands, n).value.id, sub, c.id);
    case AddCategory(n) =>
      InCategoryIff(tb, c, Lower(n));
      BitsAt(tb, u, CategoryIds(tb.commands, Lower(n)), true, c.id);
    case RemoveCategory(n) =>
      InCategoryIff(tb, c, Lower(n));
      BitsAt(tb, u, CategoryIds(tb.commands, Lower(n)), false, c.id);
  }

  lemma OtherBitAfter(tb: Table, hash: string -> string, u: User, r: Rule, id: nat)
    requires !IsCommandRule(r) && Effect(tb, hash, u, r).Done? && id < tb.bits
    ensures id in Effect(tb, hash, u, r).u.bits <==>
            if r.AllCommands? then true else if r.NoCommands? || r.Reset? then false else id in u.bits
    ensures var v := Effect(tb, hash, u, r).u;
            if r.AllCommands? || r.NoCommands? || r.Reset? then v.subs == map[] else v.subs == u.subs
  {
    hide ValidHash;
    hide HasSpaces;
    hide AddNew;
    hide Remove;
  }

  /** The bit of a command after a rule. */
  lemma BitAfter(tb: Table, hash: string -> string, u: User, r: Rule, c: Command)
    requires TableOk(tb) && c in tb.commands && Effect(tb, hash, u, r).Done?
    ensures c.id in Effect(tb, hash, u, r).u.bits <==>
            if Grant(tb, r, c).Some? then Grant(tb, r, c).value else c.id in u.bits
  {
    hide Effect;
    hide Lower;
    if IsCommandRule(r) {
      CommandBitAfter(tb, hash, u, r, c);
    } else {
      IdsInRange(tb);
      assert c.id in Ids(tb.commands);
      hide TableOk;
      OtherBitAfter(tb, hash, u, r, c.id);
    }
  }

  /** The grants of a list of rules, one after the other: the last one counts. */
  function LastGrant(tb: Table, ops: seq<string>, c: Command, was: bool): bool
    decreases |ops|
  {
    if ops == [] then was
    else
      var g := Grant(tb, ParseRule(ops[0]), c);
      LastGrant(tb, ops[1..], c, if g.Some? then g.value else was)
  }

  /** After any accepted rules the bit of a command is what the last rule about it says. */
  lemma {:induction false} LastRuleWins(tb: Table, hash: string -> string, u: User, ops: seq<string>, c: Command)
    requires TableOk(tb) && c in tb.commands && SetAll(tb, hash, u, ops).Done?
    ensures c.id in SetAll(tb, hash, u, ops).u.bits <==> LastGrant(tb, ops, c, c.id in u.bits)
    decreases |ops|
  {
    hide TableOk;
    hide Effect;
    hide ParseRule;
    hide Grant;
    if ops != [] {
      BitAfter(tb, hash, u, ParseRule(ops[0]), c);
      LastRuleWins(tb, hash, SetUser(tb, hash, u, ops[0]).u, ops[1..], c);
    }
  }

  // ----- subcommands --------------------------------------------------------------------

  lemma SnocNoCase(xs: seq<string>, sub: string, x: string)
    ensures HasNoCase(xs + [sub], x) <==> HasNoCase(xs, x) || Lower(sub) == Lower(x)
  {
    hide Lower;
    var ys := xs + [sub];
    assert ys[|xs|] == sub && forall i :: 0 <= i < |xs| ==> ys[i] == xs[i];
  }

  lemma ListedIsHas(u: User, id: nat, x: string)
    ensures SubListed(u, id, x) <==> HasNoCase(if id in u.subs then u.subs[id] else [], x)
  {
    hide Lower;
  }

  lemma SameNoCase(xs: seq<string>, x: string, y: string)
    requires Lower(x) == Lower(y)
    ensures HasNoCase(xs, x) <==> HasNoCase(xs, y)
  {
    hide Lower;
  }

  lemma SubAdded(tb: Table, u: User, at: nat, sub: string, id: nat, x: string)
    ensures SubListed(SetBit(tb, AddSubcommand(u, at, sub), at, false), id, x) <==>
            SubListed(u, id, x) || (id == at && Lower(x) == Lower(sub))
  {
    hide Lower;
    hide HasNoCase;
    hide SubListed;
    var v := SetBit(tb, AddSubcommand(u, at, sub), at, false);
    ListedIsHas(u, id, x);
    ListedIsHas(v, id, x);
    if id == at {
      var was := if at in u.subs then u.subs[at] else [];
      SnocNoCase(was, sub, x);
      if Lower(x) == Lower(sub) { SameNoCase(was, x, sub); }
    }
  }

  lemma CommandSubsAfter(tb: Table, hash: string -> string, u: User, r: Rule, c: Command, x: string)
    requires TableOk(tb) && c in tb.commands && IsCommandRule(r) && Effect(tb, hash, u, r).Done?
    ensures SubListed(Effect(tb, hash, u, r).u, c.id, x) <==>
            if r.AddSub? && Lower(r.name) == Lower(c.name) then SubListed(u, c.id, x) || Lower(x) == Lower(r.sub)
            else SubListed(u, c.id, x) && Grant(tb, r, c).None?
  {
    hide SetBits;
    hide SetBit;
    hide DropSubs;
    hide AddSubcommand;
    hide Lower;
    IdsInRange(tb);
    assert c.id in Ids(tb.commands);
    hide TableOk;
    hide Ids;
    hide CategoryIds;
    var v := Effect(tb, hash, u, r).u;
    match r
    case AddCommand(n) =>
      var id := Lookup(tb.commands, n).value.id;
      OneBit(tb, u, id, true);
      BitsAt(tb, u, {id}, true, c.id);
      FoundIff(tb, c, n);
    case RemoveCommand(n) =>
      var id := Lookup(tb.commands, n).value.id;
      OneBit(tb, u, id, false);
      BitsAt(tb, u, {id}, false, c.id);
      FoundIff(tb, c, n);
    case AddSub(n, sub) =>
      SubAdded(tb, u, Lookup(tb.commands, n).value.id, sub, c.id, x);
      FoundIff(tb, c, n);
    case AddCategory(n) =>
      InCategoryIff(tb, c, Lower(n));
      BitsAt(tb, u, CategoryIds(tb.commands, Lower(n)), true, c.id);
    case RemoveCategory(n) =>
      InCategoryIff(tb, c, Lower(n));
      BitsAt(tb, u, CategoryIds(tb.commands, Lower(n)), false, c.id);
  }

  /** The subcommands listed for a command after a rule: +name|sub adds one, and every rule that gives
      or takes the command away drops them all. */
  lemma SubsAfter(tb: Table, hash: string -> string, u: User, r: Rule, c: Command, x: string)
    requires TableOk(tb) && c in tb.commands && Effect(tb, hash, u, r).Done?
    ensures SubListed(Effect(tb, hash, u, r).u, c.id, x) <==>
            if r.AddSub? && Lower(r.name) == Lower(c.name) then SubListed(u, c.id, x) || Lower(x) == Lower(r.sub)
            else SubListed(u, c.id, x) && Grant(tb, r, c).None?
  {
    hide Effect;
    hide Lower;
    if IsCommandRule(r) {
      CommandSubsAfter(tb, hash, u, r, c, x);
    } else {
      IdsInRange(tb);
      assert c.id in Ids(tb.commands);
      hide TableOk;
      OtherBitAfter(tb, hash, u, r, c.id);
    }
  }

  // ----- which categories a description names ---------------------------------------------

  /** The commands of a category, modules included, whose bit is as given. */
  function Members(cmds: seq<Command>, cat: string, bits: set<nat>, on: bool): set<nat> {
    set c | c in cmds && cat in c.categories && (c.id in bits) == on :: c.id
  }

  lemma MembersCons(cmds: seq<Command>, cat: string, bits: set<nat>, on: bool)
    requires DistinctIds(cmds) && cmds != []
    ensures var m, c := Members(cmds[1..], cat, bits, on), cmds[0];
            && c.id !in m
            && Members(cmds, cat, bits, on) == m + (if cat in c.categories && (c.id in bits) == on then {c.id} else {})
  {
    assert cmds == [cmds[0]] + cmds[1..];
  }

  lemma {:induction false} CountIsSize(cmds: seq<Command>, cat: string, bits: set<nat>, on: bool)
    requires DistinctIds(cmds)
    ensures CountBits(cmds, cat, bits, on) == |Members(cmds, cat, bits, on)|
  {
    if cmds == [] {
      assert Members(cmds, cat, bits, on) == {};
    } else {
      hide Members;
      MembersCons(cmds, cat, bits, on);
      CountIsSize(cmds[1..], cat, bits, on);
    }
  }

  lemma {:induction false} CategoryRuleIn(tb: Table, u: User, cats: seq<string>, additive: bool, cat: string)
    ensures (if additive then AddCategory(cat) else RemoveCategory(cat)) in CategoryRules(tb, u, cats, additive) <==>
            cat in cats && WorthIt(tb, u, cat, additive)
    ensures (if additive then RemoveCategory(cat) else AddCategory(cat)) !in CategoryRules(tb, u, cats, additive)
    decreases |cats|
  {
    hide WorthIt;
    if cats != [] {
      CategoryRuleIn(tb, u, cats[1..], additive, cat);
      assert cats == [cats[0]] + cats[1..];
    }
  }

  lemma {:induction false} NoCategoryRule(u: User, fake: set<nat>, cmds: seq<Command>, cat: string)
    ensures AddCategory(cat) !in CommandRules(u, fake, cmds) && RemoveCategory(cat) !in CommandRules(u, fake, cmds)
    decreases |cmds|
  {
    if cmds != [] {
      NoCategoryRule(u, FixBit(u, fake, cmds[0].id), cmds[1..], cat);
      if cmds[0].id in u.subs { OnlySubs(cmds[0].name, u.subs[cmds[0].id]); }
    }
  }

  lemma {:induction false} OnlySubs(name: string, subs: seq<string>)
    ensures forall r :: r in SubRules(name, subs) ==> r.AddSub?
  {
    if subs != [] { OnlySubs(name, subs[1..]); }
  }

  /** The describer names a category with + exactly if future commands are not allowed and more of its
      commands are allowed than not, and with - exactly the other way round. */
  lemma CategoryNamedIff(tb: Table, u: User, cat: string)
    requires TableOk(tb)
    ensures var on, off := |Members(tb.commands, cat, u.bits, true)|, |Members(tb.commands, cat, u.bits, false)|;
            && (AddCategory(cat) in DescribeCommands(tb, u) <==>
                cat in tb.categories && Reserved(tb) !in u.bits && on > off)
            && (RemoveCategory(cat) in DescribeCommands(tb, u) <==>
                cat in tb.categories && Reserved(tb) in u.bits && off > on)
  {
    hide CategoryRules;
    hide CommandRules;
    hide CountBits;
    hide Members;
    hide GuessBits;
    TableKnows(tb);
    IdsInRange(tb);
    hide TableOk;
    CountIsSize(tb.commands, cat, u.bits, true);
    CountIsSize(tb.commands, cat, u.bits, false);
    CategoryRuleIn(tb, u, tb.categories, Additive(tb, u), cat);
    NoCategoryRule(u, GuessBits(tb, u), tb.commands, cat);
  }

  // ----- the texts of rules ---------------------------------------------------------------

  lemma RuleWords(op: string)
    ensures Is(op, "on") ==> ParseRule(op) == SwitchOn
    ensures Is(op, "off") ==> ParseRule(op) == SwitchOff
    ensures Is(op, "allkeys") || Is(op, "~*") ==> ParseRule(op) == AllKeys
    ensures Is(op, "resetkeys") ==> ParseRule(op) == ResetKeys
    ensures Is(op, "allcommands") || Is(op, "+@all") ==> ParseRule(op) == AllCommands
    ensures Is(op, "nocommands") || Is(op, "-@all") ==> ParseRule(op) == NoCommands
    ensures Is(op, "nopass") ==> ParseRule(op) == NoPass
    ensures Is(op, "resetpass") ==> ParseRule(op) == ResetPass
  {
    hide Lower;
    hide ParseMarked;
  }

  lemma ResetWord(op: string)
    requires Is(op, "reset")
    ensures ParseRule(op) == Reset
  {
    var c := CStr(op);
    assert Lower(c)[0] == 'r' == LowerChar(c[0]);
    hide Lower;
    hide Find;
  }

  /** Everything behind the mark of a password rule is its text, NUL bytes included. */
  lemma PasswordText(mark: char, text: string)
    requires mark in {'>', '#', '<', '!'}
    ensures ParseRule([mark] + text) == match mark
                                        case '>' => AddPass(text)
                                        case '#' => AddHash(text)
                                        case '<' => DelPass(text)
                                        case _ => DelHash(text)
  {
    var op := [mark] + text;
    var c := CStr(op);
    assert c != "" && c[0] == mark && Lower(c)[0] == mark;
    hide Lower;
    hide Find;
    hide CStr;
    assert op[1..] == text;
    NoKeyword(Lower(c), mark);
  }

  lemma NoKeyword(low: string, mark: char)
    requires mark in {'>', '#', '<', '!'} && low != "" && low[0] == mark
    ensures Keyword(low) == None
  {
  }

  /** A text that is no word of the language and has no mark is unknown, and so refused with EINVAL. */
  lemma UnknownText(op: string)
    requires op != "" && op[0] !in {'>', '#', '<', '!', '~', '+', '-'}
    requires Keyword(Lower(CStr(op))).None? && Lower(CStr(op)) != "reset"
    ensures ParseRule(op) == Unknown
  {
    hide ParseMarked;
    hide Lower;
    hide Keyword;
    UnknownMark(op, CStr(op));
  }

  lemma UnknownMark(op: string, c: string)
    requires op != "" && op[0] !in {'>', '#', '<', '!', '~', '+', '-'} && c <= op && Lower(c) != "reset"
    ensures ParseMarked(op, c) == Unknown
  {
    hide Lower;
    hide Find;
    if c != "" { assert c[0] == op[0]; }
  }

  // ----- what follows for a user -------------------------------------------------------------

  lemma WordIsItself(w: string)
    requires '\0' !in w && forall i :: 0 <= i < |w| ==> !('A' <= w[i] <= 'Z')
    ensures Is(w, w)
  {
    CStrWhole(w);
    LowerIsSame(w);
  }

  lemma WordsParse()
    ensures ParseRule("resetpass") == ResetPass && ParseRule("nopass") == NoPass
    ensures ParseRule("resetkeys") == ResetKeys && ParseRule("allkeys") == AllKeys
    ensures ParseRule("off") == SwitchOff && ParseRule("-@all") == NoCommands && ParseRule("reset") == Reset
  {
    hide ParseRule;
    hide Is;
    WordIsItself("resetpass");
    WordIsItself("nopass");
    WordIsItself("resetkeys");
    WordIsItself("allkeys");
    WordIsItself("off");
    WordIsItself("-@all");
    WordIsItself("reset");
    RuleWords("resetpass");
    RuleWords("nopass");
    RuleWords("resetkeys");
    RuleWords("allkeys");
    RuleWords("off");
    RuleWords("-@all");
    ResetWord("reset");
  }

  lemma WordEffects(tb: Table, hash: string -> string, u: User)
    ensures SetUser(tb, hash, u, "resetpass") == Effect(tb, hash, u, ResetPass)
    ensures SetUser(tb, hash, u, "nopass") == Effect(tb, hash, u, NoPass)
    ensures SetUser(tb, hash, u, "resetkeys") == Effect(tb, hash, u, ResetKeys)
    ensures SetUser(tb, hash, u, "allkeys") == Effect(tb, hash, u, AllKeys)
    ensures SetUser(tb, hash, u, "off") == Effect(tb, hash, u, SwitchOff)
    ensures SetUser(tb, hash, u, "-@all") == Effect(tb, hash, u, NoCommands)
    ensures SetUser(tb, hash, u, "reset") == Effect(tb, hash, u, Reset)
  {
    hide ParseRule;
    hide Effect;
    WordsParse();
  }

  lemma {:induction false} SetAllOne(tb: Table, hash: string -> string, u: User, ops: seq<string>, k: nat, v: User)
    requires k < |ops| && SetUser(tb, hash, u, ops[k]) == Done(v)
    ensures SetAll(tb, hash, u, ops[k..]) == SetAll(tb, hash, v, ops[k + 1..])
  {
    hide SetUser;
    assert ops[k..][1..] == ops[k + 1..];
  }

  lemma SetAllNone(tb: Table, hash: string -> string, u: User)
    ensures SetAll(tb, hash, u, []) == Done(u)
  {
  }

  lemma ResetSteps(tb: Table, hash: string -> string, u: User) returns (u1: User, u2: User, u3: User)
    ensures Effect(tb, hash, u, ResetPass) == Done(u1) && Effect(tb, hash, u1, ResetKeys) == Done(u2)
    ensures Effect(tb, hash, u2, SwitchOff) == Done(u3) && Effect(tb, hash, u3, NoCommands) == Effect(tb, hash, u, Reset)
    ensures Effect(tb, hash, u, Reset).Done?
  {
    u1 := u.(nopass := false, passwords := []);
    u2 := u1.(allkeys := false, patterns := []);
    u3 := u2.(enabled := false, disabled := true);
  }

  /** reset is what resetpass, resetkeys, off and -@all do one after the other. */
  lemma ResetIsFourRules(tb: Table, hash: string -> string, u: User)
    ensures SetUser(tb, hash, u, "reset") == SetAll(tb, hash, u, ["resetpass", "resetkeys", "off", "-@all"])
  {
    hide SetUser;
    hide SetAll;
    hide Effect;
    var ops := ["resetpass", "resetkeys", "off", "-@all"];
    var u1, u2, u3 := ResetSteps(tb, hash, u);
    WordEffects(tb, hash, u);
    WordEffects(tb, hash, u1);
    WordEffects(tb, hash, u2);
    WordEffects(tb, hash, u3);
    SetAllOne(tb, hash, u, ops, 0, u1);
    SetAllOne(tb, hash, u1, ops, 1, u2);
    SetAllOne(tb, hash, u2, ops, 2, u3);
    var u4 := Effect(tb, hash, u3, NoCommands).u;
    SetAllOne(tb, hash, u3, ops, 3, u4);
    SetAllNone(tb, hash, u4);
    assert ops[0..] == ops && ops[4..] == [];
  }

  lemma NamedTexts(tb: Table, hash: string -> string, u: User, n: string, sub: string)
    ensures Removable(n) ==> SetUser(tb, hash, u, "-" + n) == Effect(tb, hash, u, RemoveCommand(n))
    ensures Addable(n) ==> SetUser(tb, hash, u, "+" + n) == Effect(tb, hash, u, AddCommand(n))
    ensures Addable(n) && '\0' !in sub ==> SetUser(tb, hash, u, "+" + n + "|" + sub) == Effect(tb, hash, u, AddSub(n, sub))
  {
    hide ParseRule;
    hide Effect;
    hide Addable;
    hide Removable;
    if Removable(n) { ReadableRemove(n); }
    if Addable(n) { ReadableAdd(n); }
    if Addable(n) && '\0' !in sub { ReadableSub(n, sub); }
  }

  /** What the three rules that name a command do to the flag ALLCOMMANDS. */
  lemma NamedFlag(tb: Table, hash: string -> string, u: User, c: Command, sub: string)
    requires TableOk(tb) && c in tb.commands && sub != ""
    ensures var r := Effect(tb, hash, u, RemoveCommand(c.name)); r.Done? && !r.u.allcommands
    ensures Effect(tb, hash, u, AddCommand(c.name)).Done?
    ensures c.id !in u.bits ==>
              var r := Effect(tb, hash, u, AddSub(c.name, sub)); r.Done? && !r.u.allcommands
  {
    hide Lower;
    hide AddSubcommand;
    NameFinds(tb, c, c.name);
    IdsInRange(tb);
    assert c.id in Ids(tb.commands);
    hide TableOk;
    hide Lookup;
    hide Ids;
  }

  /** After -name the user may not run the command, whatever the arguments. */
  lemma RemovedIsDenied(tb: Table, hash: string -> string, u: User, c: Command, q: Request)
    requires TableOk(tb) && c in tb.commands && q.id == c.id && Removable(c.name)
    ensures var r := SetUser(tb, hash, u, "-" + c.name);
            r.Done? && (CommandAllowed(r.u, q) <==> q.isAuth)
  {
    hide TableOk;
    hide SetUser;
    hide Effect;
    hide Removable;
    hide Lower;
    hide SubListed;
    NamedTexts(tb, hash, u, c.name, "x");
    NamedFlag(tb, hash, u, c, "x");
    BitAfter(tb, hash, u, RemoveCommand(c.name), c);
    if |q.argv| >= 2 { SubsAfter(tb, hash, u, RemoveCommand(c.name), c, CStr(q.argv[1])); }
  }

  /** After +name it may. */
  lemma AddedIsAllowed(tb: Table, hash: string -> string, u: User, c: Command, q: Request)
    requires TableOk(tb) && c in tb.commands && q.id == c.id && Addable(c.name)
    ensures var r := SetUser(tb, hash, u, "+" + c.name);
            r.Done? && CommandAllowed(r.u, q)
  {
    hide TableOk;
    hide SetUser;
    hide Effect;
    hide Addable;
    hide Lower;
    hide SubListed;
    NamedTexts(tb, hash, u, c.name, "x");
    NamedFlag(tb, hash, u, c, "x");
    BitAfter(tb, hash, u, AddCommand(c.name), c);
  }

  /** After +name|sub the command is allowed with that subcommand, and with no subcommand that was not
      listed before. */
  lemma SubcommandIsAllowed(tb: Table, hash: string -> string, u: User, c: Command, sub: string, q: Request)
    requires TableOk(tb) && c in tb.commands && q.id == c.id && Addable(c.name) && sub != "" && '\0' !in sub
    requires c.id !in u.bits
    ensures var r := SetUser(tb, hash, u, "+" + c.name + "|" + sub);
            && r.Done?
            && (CommandAllowed(r.u, q) <==>
                q.isAuth || (|q.argv| >= 2 && (Lower(CStr(q.argv[1])) == Lower(sub) || SubListed(u, c.id, CStr(q.argv[1])))))
  {
    hide TableOk;
    hide SetUser;
    hide Effect;
    hide Addable;
    hide Lower;
    hide SubListed;
    NamedTexts(tb, hash, u, c.name, sub);
    NamedFlag(tb, hash, u, c, sub);
    BitAfter(tb, hash, u, AddSub(c.name, sub), c);
    if |q.argv| >= 2 { SubsAfter(tb, hash, u, AddSub(c.name, sub), c, CStr(q.argv[1])); }
  }

  /** After resetkeys no request with a key passes; after allkeys no key is denied. */
  lemma KeyWords(tb: Table, hash: string -> string, glob: (string, string) -> bool, u: User, q: Request)
    requires KeysInside(q)
    ensures var r := SetUser(tb, hash, u, "resetkeys");
            r.Done? && (q.keys != [] ==> CheckPermission(r.u, glob, q) in {DeniedCmd, DeniedKey(q.keys[0])})
    ensures var r := SetUser(tb, hash, u, "allkeys"); r.Done? && !CheckPermission(r.u, glob, q).DeniedKey?
  {
    hide SetUser;
    hide CheckPermission;
    hide CommandAllowed;
    WordEffects(tb, hash, u);
    var r, a := Effect(tb, hash, u, ResetKeys).u, Effect(tb, hash, u, AllKeys).u;
    PermissionMeans(r, glob, q);
    PermissionMeans(a, glob, q);
    if q.keys != [] { KeysAfter(tb, hash, glob, u, ResetKeys, q.argv[q.keys[0]]); }
  }

  lemma PasswordTexts(tb: Table, hash: string -> string, u: User, p: string)
    ensures SetUser(tb, hash, u, ">" + p) == Effect(tb, hash, u, AddPass(p))
    ensures SetUser(tb, hash, u, "<" + p) == Effect(tb, hash, u, DelPass(p))
    ensures SetUser(tb, hash, u, "#" + p) == Effect(tb, hash, u, AddHash(p))
    ensures SetUser(tb, hash, u, "!" + p) == Effect(tb, hash, u, DelHash(p))
  {
    hide ParseRule;
    hide Effect;
    PasswordText('>', p);
    PasswordText('<', p);
    PasswordText('#', p);
    PasswordText('!', p);
    assert ['>'] + p == ">" + p && ['<'] + p == "<" + p && ['#'] + p == "#" + p && ['!'] + p == "!" + p;
  }

  /** >p lets p in, if the user is on, and from then on only passwords that are listed. */
  lemma PasswordAdded(tb: Table, hash: string -> string, u: User, p: string, other: string)
    requires NoDuplicates(u.passwords)
    ensures var r := SetUser(tb, hash, u, ">" + p);
            && r.Done?
            && (CanLogin(r.u, hash, other) <==> !u.disabled && (hash(other) in u.passwords || hash(other) == hash(p)))
  {
    hide SetUser;
    PasswordTexts(tb, hash, u, p);
    RuleIsDone(tb, hash, u, AddPass(p));
    PasswordsAfter(tb, hash, u, AddPass(p), hash(other));
    FlagsAfter(tb, hash, u, AddPass(p));
    hide Effect;
  }

  lemma RuleIsDone(tb: Table, hash: string -> string, u: User, r: Rule)
    ensures r.AddPass? || r.NoPass? || r.ResetPass? ==> Effect(tb, hash, u, r).Done?
    ensures r.DelPass? ==> (Effect(tb, hash, u, r).Done? <==> hash(r.text) in u.passwords)
  {
  }

  /** <p is accepted exactly if p is a password of the user; then it lets nobody in who does not know
      another one, and changes nothing for the others. */
  lemma PasswordRemoved(tb: Table, hash: string -> string, u: User, p: string, other: string)
    requires NoDuplicates(u.passwords)
    ensures var r := SetUser(tb, hash, u, "<" + p);
            && (r.Done? <==> hash(p) in u.passwords)
            && (r.Done? ==> (CanLogin(r.u, hash, other) <==> CanLogin(u, hash, other) && (u.nopass || hash(other) != hash(p))))
  {
    hide SetUser;
    hide Effect;
    PasswordTexts(tb, hash, u, p);
    RuleIsDone(tb, hash, u, DelPass(p));
    if hash(p) in u.passwords {
      PasswordsAfter(tb, hash, u, DelPass(p), hash(other));
      FlagsAfter(tb, hash, u, DelPass(p));
    }
  }

  /** After resetpass nobody gets in; after nopass everybody, if the user is on. */
  lemma PasswordWords(tb: Table, hash: string -> string, u: User, p: string)
    requires NoDuplicates(u.passwords)
    ensures var r := SetUser(tb, hash, u, "resetpass"); r.Done? && !CanLogin(r.u, hash, p)
    ensures var r := SetUser(tb, hash, u, "nopass"); r.Done? && (CanLogin(r.u, hash, p) <==> !u.disabled)
  {
    hide SetUser;
    hide Effect;
    WordEffects(tb, hash, u);
    RuleIsDone(tb, hash, u, ResetPass);
    RuleIsDone(tb, hash, u, NoPass);
    PasswordsAfter(tb, hash, u, ResetPass, hash(p));
    FlagsAfter(tb, hash, u, ResetPass);
    FlagsAfter(tb, hash, u, NoPass);
  }
}
