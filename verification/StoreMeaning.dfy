/**
  What the modelled commands mean for a key: when SET, EXPIRE and DEL take effect, and what they
  leave.
 */
module StoreMeaning {
  import opened Decimal
  import opened Resp
  import opened Text
  import opened Store

  // ----- the options of SET ---------------------------------------------------

  datatype Item = Nx | Xx | KeepTtl | Ex(seconds: Bytes) | Px(millis: Bytes)

  /** The arguments spell these options, in any case of letters. */
  predicate Spells(args: Argv, items: seq<Item>)
    decreases |items|
  {
    if items == [] then args == []
    else
      match items[0]
      case Nx => args != [] && Is(args[0], "nx") && Spells(args[1..], items[1..])
      case Xx => args != [] && Is(args[0], "xx") && Spells(args[1..], items[1..])
      case KeepTtl => args != [] && Is(args[0], "keepttl") && Spells(args[1..], items[1..])
      case Ex(b) => |args| >= 2 && Is(args[0], "ex") && args[1] == b && Spells(args[2..], items[1..])
      case Px(b) => |args| >= 2 && Is(args[0], "px") && args[1] == b && Spells(args[2..], items[1..])
  }

  /** An option among others of a SET. */
  predicate HasNx(items: seq<Item>) { exists i :: 0 <= i < |items| && items[i].Nx? }
  predicate HasXx(items: seq<Item>) { exists i :: 0 <= i < |items| && items[i].Xx? }
  predicate HasKeep(items: seq<Item>) { exists i :: 0 <= i < |items| && items[i].KeepTtl? }
  predicate HasEx(items: seq<Item>) { exists i :: 0 <= i < |items| && items[i].Ex? }
  predicate HasPx(items: seq<Item>) { exists i :: 0 <= i < |items| && items[i].Px? }

  /** The options do not contradict each other. */
  predicate Consistent(items: seq<Item>) {
    && !(HasNx(items) && HasXx(items))
    && !(HasKeep(items) && (HasEx(items) || HasPx(items)))
    && !(HasEx(items) && HasPx(items))
  }

  function Apply(o: SetOptions, it: Item): SetOptions {
    match it
    case Nx => o.(nx := true)
    case Xx => o.(xx := true)
    case KeepTtl => o.(keepttl := true)
    case Ex(b) => o.(ex := Some(b))
    case Px(b) => o.(px := Some(b))
  }

  function ApplyAll(o: SetOptions, items: seq<Item>): SetOptions
    decreases |items|
  {
    if items == [] then o else ApplyAll(Apply(o, items[0]), items[1..])
  }

  predicate Fine(o: SetOptions) {
    !(o.nx && o.xx) && !(o.keepttl && (o.ex.Some? || o.px.Some?)) && !(o.ex.Some? && o.px.Some?)
  }

  lemma {:induction false} FineBefore(o: SetOptions, items: seq<Item>)
    requires Fine(ApplyAll(o, items))
    ensures Fine(o)
    decreases |items|
  {
    if items != [] { FineBefore(Apply(o, items[0]), items[1..]); }
  }

  lemma DistinctWords(s: Bytes)
    ensures Is(s, "nx") ==> !Is(s, "xx") && !Is(s, "keepttl") && !Is(s, "ex") && !Is(s, "px")
    ensures Is(s, "xx") ==> !Is(s, "keepttl") && !Is(s, "ex") && !Is(s, "px")
    ensures Is(s, "keepttl") ==> !Is(s, "ex") && !Is(s, "px")
    ensures Is(s, "ex") ==> !Is(s, "px")
  {
    hide Lower;
    hide CStr;
    assert "nx"[0] == 'n' && "xx"[0] == 'x' && "ex"[0] == 'e' && "px"[0] == 'p' && |"keepttl"| == 7;
  }

  /** The parser accepts spelled options exactly if the result is fine, and then yields it. */
  lemma {:induction false} ParseItems(args: Argv, items: seq<Item>, o: SetOptions)
    requires Spells(args, items) && Fine(o)
    ensures ParseSet(args, o) == if Fine(ApplyAll(o, items)) then Some(ApplyAll(o, items)) else None
    decreases |items|
  {
    hide Is;
    if items != [] {
      DistinctWords(args[0]);
      var o1 := Apply(o, items[0]);
      if Fine(o1) {
        ParseItems(if items[0].Ex? || items[0].Px? then args[2..] else args[1..], items[1..], o1);
      } else if Fine(ApplyAll(o, items)) {
        FineBefore(o1, items[1..]);
      }
    }
  }

  /** Whatever the parser accepts spells options; anything else is a syntax error. */
  lemma {:induction false} AcceptedIsSpelled(args: Argv, o: SetOptions) returns (items: seq<Item>)
    requires ParseSet(args, o).Some?
    ensures Spells(args, items)
    decreases |args|
  {
    hide Is;
    items := [];
    if args != [] {
      if Is(args[0], "nx") && !o.xx {
        items := AcceptedIsSpelled(args[1..], o.(nx := true));
        items := [Nx] + items;
      } else if Is(args[0], "xx") && !o.nx {
        items := AcceptedIsSpelled(args[1..], o.(xx := true));
        items := [Xx] + items;
      } else if Is(args[0], "keepttl") && o.ex.None? && o.px.None? {
        items := AcceptedIsSpelled(args[1..], o.(keepttl := true));
        items := [KeepTtl] + items;
      } else if Is(args[0], "ex") && !o.keepttl && o.px.None? && |args| >= 2 {
        items := AcceptedIsSpelled(args[2..], o.(ex := Some(args[1])));
        items := [Ex(args[1])] + items;
      } else {
        items := AcceptedIsSpelled(args[2..], o.(px := Some(args[1])));
        items := [Px(args[1])] + items;
      }
    }
  }

  lemma {:induction false} AppliedHas(o: SetOptions, items: seq<Item>)
    ensures var r := ApplyAll(o, items);
            && (r.nx <==> o.nx || HasNx(items)) && (r.xx <==> o.xx || HasXx(items))
            && (r.keepttl <==> o.keepttl || HasKeep(items))
            && (r.ex.Some? <==> o.ex.Some? || HasEx(items)) && (r.px.Some? <==> o.px.Some? || HasPx(items))
    decreases |items|
  {
    if items != [] {
      AppliedHas(Apply(o, items[0]), items[1..]);
      HasCons(items);
      hide HasNx;
      hide HasXx;
      hide HasKeep;
      hide HasEx;
      hide HasPx;
    }
  }

  lemma HasCons(items: seq<Item>)
    requires items != []
    ensures HasNx(items) <==> items[0].Nx? || HasNx(items[1..])
    ensures HasXx(items) <==> items[0].Xx? || HasXx(items[1..])
    ensures HasKeep(items) <==> items[0].KeepTtl? || HasKeep(items[1..])
    ensures HasEx(items) <==> items[0].Ex? || HasEx(items[1..])
    ensures HasPx(items) <==> items[0].Px? || HasPx(items[1..])
  {
    assert items == [items[0]] + items[1..];
    assert forall i :: 1 <= i < |items| ==> items[i] == items[1..][i - 1];
  }

  /** The time to live that counts: that of the last EX or PX, in milliseconds; None if it is no
      positive number. */
  function Ttl(items: seq<Item>): Option<int> {
    if items == [] then None
    else
      match items[|items| - 1]
      case Ex(b) => var n := Strict(b); if n.Number? && n.value > 0 then Some(InMillis(n.value, Seconds)) else None
      case Px(b) => var n := Strict(b); if n.Number? && n.value > 0 then Some(n.value) else None
      case _ => Ttl(items[..|items| - 1])
  }

  lemma {:induction false} ApplySnoc(o: SetOptions, items: seq<Item>, it: Item)
    ensures ApplyAll(o, items + [it]) == Apply(ApplyAll(o, items), it)
    decreases |items|
  {
    if items == [] {
      assert [] + [it] == [it] && [it][1..] == [];
    } else {
      assert (items + [it])[1..] == items[1..] + [it] && (items + [it])[0] == items[0];
      ApplySnoc(Apply(o, items[0]), items[1..], it);
    }
  }

  function TtlOf(o: SetOptions): Option<int> {
    if o.ex.Some? then
      var n := Strict(o.ex.value); if n.Number? && n.value > 0 then Some(InMillis(n.value, Seconds)) else None
    else if o.px.Some? then
      var n := Strict(o.px.value); if n.Number? && n.value > 0 then Some(n.value) else None
    else None
  }

  lemma {:induction false} LastTtl(items: seq<Item>)
    requires Fine(ApplyAll(NO_OPTIONS, items))
    ensures TtlOf(ApplyAll(NO_OPTIONS, items)) == Ttl(items)
    decreases |items|
  {
    hide Strict;
    hide InMillis;
    if items != [] {
      var n := |items| - 1;
      assert items == items[..n] + [items[n]];
      ApplySnoc(NO_OPTIONS, items[..n], items[n]);
      LastTtl(items[..n]);
    }
  }

  /** The whole meaning of SET. It takes effect exactly if its options are consistent, a time to live
      is a positive number, NX finds no key and XX finds one. Then the key has the value, and expires
      after the time to live, or as before under KEEPTTL, or never. Nothing else changes. */
  lemma SetMeans(eng: Engine, loading: bool, now: int, force: bool, ds: Dataset, db: nat, argv: Argv, items: seq<Item>)
    requires |argv| >= 3 && eng.kindOf(argv[0]) == SetCmd && Spells(argv[3..], items)
    ensures var r, key := Execute(eng, loading, now, force, ds, db, argv), Key(db, argv[1]);
            var timed := HasEx(items) || HasPx(items);
            && (r.dirty <==> && Consistent(items) && (timed ==> Ttl(items).Some?)
                             && (HasNx(items) ==> key !in ds) && (HasXx(items) ==> key in ds))
            && (!r.dirty ==> r.ds == ds)
            && (r.dirty ==> r.ds == ds[key := Entry(Str(argv[2]), if timed then Wrap(now + Ttl(items).value)
                                                                    else if HasKeep(items) && key in ds then ds[key].expire
                                                                    else -1)])
            && r.argv == argv
  {
    hide Strict;
    hide Wrap;
    hide Is;
    hide HasNx;
    hide HasXx;
    hide HasKeep;
    hide HasEx;
    hide HasPx;
    hide ParseSet;
    hide ApplyAll;
    hide Ttl;
    ParseItems(argv[3..], items, NO_OPTIONS);
    AppliedHas(NO_OPTIONS, items);
    if Consistent(items) { LastTtl(items); }
  }

  // ----- EXPIRE and DEL -----------------------------------------------------------

  /** The time that an expiry command names, for each of the four. */
  function Deadline(kind: Kind, n: int, now: int): int {
    match kind
    case ExpireCmd => Wrap(now + Wrap(n * 1000))
    case PexpireCmd => Wrap(now + n)
    case ExpireatCmd => Wrap(Wrap(n * 1000))
    case _ => Wrap(n)
  }

  /** An expiry command takes effect exactly on a key that exists, with a number; a deadline that is
      past deletes the key and propagates the deletion, unless the file is being loaded; otherwise the
      key keeps its value and gets the deadline. */
  lemma ExpireMeans(eng: Engine, loading: bool, now: int, force: bool, ds: Dataset, db: nat, argv: Argv)
    requires |argv| == 3 && eng.kindOf(argv[0]) in {ExpireCmd, PexpireCmd, ExpireatCmd, PexpireatCmd}
    ensures var r, key, n := Execute(eng, loading, now, force, ds, db, argv), Key(db, argv[1]), Strict(argv[2]);
            && (r.dirty <==> n.Number? && key in ds)
            && (!r.dirty ==> r.ds == ds)
            && (r.dirty ==>
                  var at := Deadline(eng.kindOf(argv[0]), n.value, now);
                  if at <= now && !loading
                  then r.ds == ds - {key} && |r.argv| == 2 && r.argv[1] == argv[1] &&
                       r.argv[0] == (if eng.lazyExpire then "UNLINK" else "DEL")
                  else r.ds == ds[key := Entry(ds[key].value, at)] && r.argv == argv)
  {
    hide Strict;
    hide Wrap;
  }

  /** DEL removes exactly the named keys of its database, and is propagated exactly if it removed one
      or is told to. */
  lemma DelMeans(eng: Engine, loading: bool, now: int, force: bool, ds: Dataset, db: nat, argv: Argv, k: Key)
    requires argv != [] && eng.kindOf(argv[0]) == DelCmd
    ensures var r := Execute(eng, loading, now, force, ds, db, argv);
            && (k in r.ds <==> k in ds && !(k.db == db && k.name in argv[1..]))
            && (k in r.ds ==> r.ds[k] == ds[k])
            && (r.dirty <==> force || exists i :: 1 <= i < |argv| && Key(db, argv[i]) in ds)
  {
    var r := Execute(eng, loading, now, force, ds, db, argv);
    if i :| 1 <= i < |argv| && Key(db, argv[i]) in ds {
      assert argv[i] in argv[1..] by { assert argv[1..][i - 1] == argv[i]; }
      assert Key(db, argv[i]) !in r.ds;
    } else {
      forall n | n in argv[1..] ensures Key(db, n) !in ds {
        var i :| 0 <= i < |argv| - 1 && argv[1..][i] == n;
        assert argv[i + 1] == n;
      }
      assert r.ds == ds;
    }
  }

  /** An aggregate command on a key of another type changes nothing. */
  lemma WrongType(eng: Engine, loading: bool, now: int, ds: Dataset, db: nat, argv: Argv)
    requires GrowsHere(eng, argv) && Key(db, argv[1]) in ds
    requires var kind, v := eng.kindOf(argv[0]), ds[Key(db, argv[1])].value;
             && (kind == RpushCmd ==> !v.List?) && (kind == SaddCmd ==> !v.Set?)
             && (kind == ZaddCmd ==> !v.ZSet?) && (kind == HmsetCmd ==> !v.Hash?)
    ensures Execute(eng, loading, now, false, ds, db, argv) == Outcome(ds, false, argv)
  {
    hide Is;
  }
}
