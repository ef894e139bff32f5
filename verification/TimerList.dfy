/**
  The time event list of redis-stable/src/ae.c as linked nodes. Every operation keeps prev and
  next consistent and does to the nodes what the functions of module Timers do to the list.
 */
module TimerList {
  import T = Timers

  class TimeEvent {
    var id: int
    var due: T.Clock
    var refcount: int
    var prev: TimeEvent?
    var next: TimeEvent?

    constructor (id: int, due: T.Clock)
      ensures this.id == id && this.due == due && refcount == 0 && prev == null && next == null
    {
      this.id := id;
      this.due := due;
      refcount := 0;
      prev := null;
      next := null;
    }
  }

  /** prev and next of a node are its neighbours. */
  ghost predicate LinkAt(ns: seq<TimeEvent>, i: int)
    requires 0 <= i < |ns|
    reads {ns[i]}`prev, {ns[i]}`next
  {
    && ns[i].prev == (if i == 0 then null else ns[i - 1])
    && ns[i].next == (if i == |ns| - 1 then null else ns[i + 1])
  }

  ghost predicate Distinct(ns: seq<TimeEvent>) {
    forall i, j :: 0 <= i < j < |ns| ==> ns[i] != ns[j]
  }

  /** A node holds the data of a timer. */
  ghost predicate Holds(n: TimeEvent, t: T.Timer)
    reads n`id, n`due, n`refcount
  {
    n.id == t.id && n.due == t.due && n.refcount == t.refcount
  }

  class TimeEvents {
    var timeEventHead: TimeEvent?
    var timeEventNextId: nat
    ghost var nodes: seq<TimeEvent>

    ghost predicate Valid()
      reads this, nodes
    {
      && timeEventHead == (if nodes == [] then null else nodes[0])
      && Distinct(nodes)
      && forall i :: 0 <= i < |nodes| ==> LinkAt(nodes, i)
    }

    ghost predicate Represents(list: seq<T.Timer>)
      reads this, nodes
    {
      |nodes| == |list| && forall i :: 0 <= i < |nodes| ==> Holds(nodes[i], list[i])
    }

    constructor ()
      ensures Valid() && nodes == [] && timeEventNextId == 0
    {
      timeEventHead := null;
      timeEventNextId := 0;
      nodes := [];
    }

    /** aeCreateTimeEvent */
    method CreateTimeEvent(milliseconds: int, now: T.Clock, ghost s: T.State) returns (id: int)
      requires Valid() && Represents(s.list) && timeEventNextId == s.nextId
      modifies this, nodes`prev
      ensures Valid() && Represents(T.Created(s, milliseconds, now).list)
      ensures id == s.nextId && timeEventNextId == T.Created(s, milliseconds, now).nextId
    {
      hide T.AddMs;
      id := timeEventNextId;
      timeEventNextId := timeEventNextId + 1;
      var te := new TimeEvent(id, T.AddMs(now, milliseconds));
      ghost var ns := nodes;
      te.next := timeEventHead;
      if te.next != null { te.next.prev := te; }
      timeEventHead := te;
      nodes := [te] + ns;
      forall k | 0 <= k < |nodes| ensures LinkAt(nodes, k) {
        assert k > 0 ==> old(LinkAt(ns, k - 1));
      }
      forall k | 0 < k < |nodes| ensures Holds(nodes[k], s.list[k - 1]) {
        assert nodes[k] == ns[k - 1];
      }
    }

    /** aeDeleteTimeEvent: only marks the timer. */
    method DeleteTimeEvent(id: int, ghost s: T.State) returns (ok: bool)
      requires Valid() && Represents(s.list)
      modifies nodes`id
      ensures Valid() && ok == T.Marked(s, id).Some?
      ensures Represents(if ok then T.Marked(s, id).value.list else s.list)
    {
      hide Distinct;
      var te := timeEventHead;
      ghost var i := 0;
      while te != null
        invariant i <= |nodes| && te == (if i < |nodes| then nodes[i] else null)
        invariant Valid() && Represents(s.list) && forall j :: 0 <= j < i ==> s.list[j].id != id
        decreases |nodes| - i
      {
        assert Holds(nodes[i], s.list[i]);
        if te.id == id {
          FirstWith(s.list, id, i);
          Mark(te, i, s.list);
          return true;
        }
        assert LinkAt(nodes, i);
        te := te.next;
        i := i + 1;
      }
      NoneWith(s.list, id);
      return false;
    }

    method Mark(te: TimeEvent, ghost i: nat, ghost list: seq<T.Timer>)
      requires Valid() && Represents(list) && i < |nodes| && nodes[i] == te
      modifies te`id
      ensures Valid() && Represents(list[i := list[i].(id := T.DELETED)])
    {
      te.id := T.DELETED;
      forall k | 0 <= k < |nodes| ensures LinkAt(nodes, k) {
        assert old(LinkAt(nodes, k));
      }
      forall k | 0 <= k < |nodes| && k != i ensures Holds(nodes[k], list[k]) {
        assert old(Holds(nodes[k], list[k]));
      }
    }

    /** aeSearchNearestTimer */
    method SearchNearestTimer(ghost list: seq<T.Timer>) returns (nearest: TimeEvent?, ghost at: nat)
      requires Valid() && Represents(list)
      ensures nearest == null <==> list == []
      ensures nearest != null ==> T.IsNearest(list, at) && at < |nodes| && nearest == nodes[at]
    {
      hide Distinct;
      var te := timeEventHead;
      nearest, at := null, 0;
      ghost var i := 0;
      while te != null
        invariant i <= |nodes| && te == (if i < |nodes| then nodes[i] else null)
        invariant nearest == null <==> i == 0
        invariant i > 0 ==> at < i && nearest == nodes[at] && T.IsNearest(list[..i], at)
        decreases |nodes| - i
      {
        assert Holds(nodes[i], list[i]) && LinkAt(nodes, i);
        assert nearest != null ==> Holds(nodes[at], list[at]);
        NearestStep(list, i, at);
        if nearest == null || te.due.sec < nearest.due.sec
           || (te.due.sec == nearest.due.sec && te.due.ms < nearest.due.ms)
        {
          nearest, at := te, i;
        }
        te := te.next;
        i := i + 1;
      }
      assert list[..i] == list;
    }

    /** The loop of processTimeEvents that makes everything due after the clock went back. */
    method MakeAllDue(ghost list: seq<T.Timer>)
      requires Valid() && Represents(list)
      modifies nodes`due
      ensures Valid() && Represents(T.AllAsap(list))
    {
      var te := timeEventHead;
      ghost var i := 0;
      ghost var asap := T.AllAsap(list);
      while te != null
        invariant i <= |nodes| && te == (if i < |nodes| then nodes[i] else null)
        invariant Valid() && forall k :: 0 <= k < |nodes| ==> Holds(nodes[k], if k < i then asap[k] else list[k])
        decreases |nodes| - i
      {
        assert LinkAt(nodes, i);
        MakeDue(te, i, list, asap);
        te := te.next;
        i := i + 1;
      }
    }

    method MakeDue(te: TimeEvent, ghost i: nat, ghost list: seq<T.Timer>, ghost asap: seq<T.Timer>)
      requires Valid() && i < |nodes| && nodes[i] == te && |list| == |asap| == |nodes|
      requires asap[i] == list[i].(due := list[i].due.(sec := 0))
      requires forall k :: 0 <= k < |nodes| ==> Holds(nodes[k], if k < i then asap[k] else list[k])
      modifies te`due
      ensures Valid() && forall k :: 0 <= k < |nodes| ==> Holds(nodes[k], if k < i + 1 then asap[k] else list[k])
    {
      assert Holds(nodes[i], list[i]);
      te.due := te.due.(sec := 0);
      forall k | 0 <= k < |nodes| ensures LinkAt(nodes, k) {
        assert old(LinkAt(nodes, k));
      }
      forall k | 0 <= k < |nodes| && k != i ensures Holds(nodes[k], if k < i then asap[k] else list[k]) {
        assert old(Holds(nodes[k], if k < i then asap[k] else list[k]));
      }
    }

    /** The unlinking in processTimeEvents. */
    method UnlinkEvent(te: TimeEvent, ghost p: nat, ghost list: seq<T.Timer>)
      requires Valid() && Represents(list) && p < |nodes| && nodes[p] == te
      modifies this`timeEventHead, this`nodes, nodes`prev, nodes`next
      ensures Valid() && Represents(T.Unlink(list, p)) && te !in nodes
      ensures nodes == old(nodes)[..p] + old(nodes)[p + 1..]
    {
      ghost var ns := nodes;
      assert LinkAt(ns, p);
      if te.prev != null { te.prev.next := te.next; } else { timeEventHead := te.next; }
      if te.next != null { te.next.prev := te.prev; }
      nodes := ns[..p] + ns[p + 1..];
      forall k | 0 <= k < p ensures LinkAt(nodes, k) {
        assert nodes[k] == ns[k] && old(LinkAt(ns, k));
      }
      forall k | p <= k < |nodes| ensures LinkAt(nodes, k) {
        assert nodes[k] == ns[k + 1] && old(LinkAt(ns, k + 1));
      }
      assert Distinct(nodes);
      forall k | 0 <= k < |nodes| ensures Holds(nodes[k], T.Unlink(list, p)[k]) {
        assert old(Holds(ns[if k < p then k else k + 1], list[if k < p then k else k + 1]));
      }
    }
  }

  lemma FirstWith(list: seq<T.Timer>, id: int, i: nat)
    requires i < |list| && list[i].id == id && forall j :: 0 <= j < i ==> list[j].id != id
    ensures T.PlaceOfId(list, id) == i
  {
    assert T.PlaceOfId(list, id) <= i;
  }

  lemma NoneWith(list: seq<T.Timer>, id: int)
    requires forall j :: 0 <= j < |list| ==> list[j].id != id
    ensures T.PlaceOfId(list, id) == |list|
  {
  }

  lemma NearestStep(list: seq<T.Timer>, i: nat, at: nat)
    requires i < |list| && (i > 0 ==> T.IsNearest(list[..i], at))
    ensures i == 0 || T.Before(list[i].due, list[at].due) ==> T.IsNearest(list[..i + 1], i)
    ensures i > 0 && !T.Before(list[i].due, list[at].due) ==> T.IsNearest(list[..i + 1], at)
  {
    assert forall j :: 0 <= j < i ==> list[..i + 1][j] == list[..i][j];
  }
}
