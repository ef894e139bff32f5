/**
  The doubly linked list of redis-stable/src/adlist.c. Every list object carries the ghost
  sequence of its nodes; Valid ties head, tail, prev, next and len to it, and every operation
  is stated as an operation on that sequence.
 */
module AdList {
  import opened Text

  /** Values are void pointers, modelled by their addresses. */
  type Ptr = int
  const NULL: Ptr := 0

  class Node {
    var prev: Node?
    var next: Node?
    var value: Ptr

    constructor (value: Ptr)
      ensures this.value == value && prev == null && next == null
    {
      this.value := value;
      prev := null;
      next := null;
    }
  }

  ghost function First(ns: seq<Node>): Node? {
    if ns == [] then null else ns[0]
  }

  ghost function Last(ns: seq<Node>): Node? {
    if ns == [] then null else ns[|ns| - 1]
  }

  ghost predicate Distinct(ns: seq<Node>) {
    forall i, j :: 0 <= i < j < |ns| ==> ns[i] != ns[j]
  }

  /** prev and next of a node are its neighbours in the sequence. */
  ghost predicate LinkAt(ns: seq<Node>, i: int)
    requires 0 <= i < |ns|
    reads ns[i]
  {
    && ns[i].prev == (if i == 0 then null else ns[i - 1])
    && ns[i].next == (if i == |ns| - 1 then null else ns[i + 1])
  }

  ghost predicate Linked(ns: seq<Node>)
    reads ns
  {
    forall i :: 0 <= i < |ns| ==> LinkAt(ns, i)
  }

  ghost function RemoveAt<A>(s: seq<A>, p: nat): seq<A>
    requires p < |s|
  {
    s[..p] + s[p + 1..]
  }

  lemma DistinctConcat(a: seq<Node>, b: seq<Node>)
    requires Distinct(a) && Distinct(b)
    requires forall i, j :: 0 <= i < |a| && 0 <= j < |b| ==> a[i] != b[j]
    ensures Distinct(a + b)
  {
  }

  ghost function InsertAt(s: seq<Node>, p: nat, x: Node): seq<Node>
    requires p <= |s|
  {
    s[..p] + [x] + s[p..]
  }

  lemma Inserted(ns: seq<Node>, q: nat, x: Node)
    requires q <= |ns| && Distinct(ns) && x !in ns
    ensures var ms := InsertAt(ns, q, x);
            && |ms| == |ns| + 1 && ms[q] == x && RemoveAt(ms, q) == ns && Distinct(ms)
            && (forall k :: 0 <= k < q ==> ms[k] == ns[k])
            && (forall k :: q < k < |ms| ==> ms[k] == ns[k - 1])
  {
    assert ns[..q] + ns[q..] == ns;
    DistinctMiddle(ns[..q], x, ns[q..]);
  }

  lemma DistinctMiddle(a: seq<Node>, x: Node, b: seq<Node>)
    requires Distinct(a + b) && x !in a + b
    ensures Distinct(a + [x] + b)
  {
    assert forall i :: 0 <= i < |a| ==> (a + b)[i] == a[i];
    assert forall i :: 0 <= i < |b| ==> (a + b)[|a| + i] == b[i];
  }

  function DupOne(v: Ptr, dup: Option<Ptr -> Ptr>): Ptr {
    if dup.None? then v else dup.value(v)
  }

  predicate DupFailsOn(v: Ptr, dup: Option<Ptr -> Ptr>) {
    dup.Some? && dup.value(v) == NULL
  }

  predicate Matches(matches: Option<(Ptr, Ptr) -> bool>, value: Ptr, key: Ptr) {
    if matches.Some? then matches.value(value, key) else key == value
  }

  class List {
    var head: Node?
    var tail: Node?
    var len: nat
    var dup: Option<Ptr -> Ptr>
    var matches: Option<(Ptr, Ptr) -> bool>
    ghost var nodes: seq<Node>

    ghost predicate Valid()
      reads this`head, this`tail, this`len, this`nodes, nodes
    {
      && len == |nodes|
      && head == First(nodes)
      && tail == Last(nodes)
      && Distinct(nodes)
      && Linked(nodes)
    }

    /** listCreate */
    constructor ()
      ensures Valid() && nodes == [] && dup == None && matches == None
    {
      head, tail, len, dup, matches, nodes := null, null, 0, None, None, [];
    }

    /** listEmpty: walks over len nodes, then forgets them. */
    method Empty()
      requires Valid()
      modifies this
      ensures Valid() && nodes == [] && dup == old(dup) && matches == old(matches)
    {
      var current := head;
      var n := len;
      while n > 0
        invariant unchanged(this) && 0 <= n <= len && Valid()
        invariant current == if n == 0 then null else nodes[|nodes| - n]
      {
        assert LinkAt(nodes, len - n);
        var next := current.next;
        current := next;
        n := n - 1;
      }
      head, tail, len, nodes := null, null, 0, [];
    }

    /** listAddNodeHead */
    method AddNodeHead(value: Ptr)
      requires Valid()
      modifies this`head, this`tail, this`len, this`nodes, nodes`prev, nodes`next
      ensures Valid() && nodes != [] && fresh(nodes[0]) && nodes[0].value == value && nodes[1..] == old(nodes)
    {
      var node := new Node(value);
      ghost var ns := nodes;
      if len == 0 {
        head := node;
        tail := node;
      } else {
        node.next := head;
        head.prev := node;
        head := node;
      }
      len := len + 1;
      nodes := [node] + ns;
      DistinctConcat([node], ns);
      forall k | 0 <= k < |nodes| ensures LinkAt(nodes, k) {
        assert k > 0 ==> old(LinkAt(ns, k - 1));
      }
    }

    /** listAddNodeTail */
    method AddNodeTail(value: Ptr)
      requires Valid()
      modifies this`head, this`tail, this`len, this`nodes, nodes`prev, nodes`next
      ensures Valid() && |nodes| == |old(nodes)| + 1 && nodes == old(nodes) + [nodes[|old(nodes)|]]
      ensures fresh(nodes[|old(nodes)|]) && nodes[|old(nodes)|].value == value
    {
      var node := new Node(value);
      ghost var ns := nodes;
      if len == 0 {
        head := node;
        tail := node;
      } else {
        node.prev := tail;
        tail.next := node;
        tail := node;
      }
      len := len + 1;
      nodes := ns + [node];
      DistinctConcat(ns, [node]);
      forall k | 0 <= k < |nodes| ensures LinkAt(nodes, k) {
        assert k < |ns| ==> old(LinkAt(ns, k));
      }
    }

    /** listInsertNode: p is the place of the old node. */
    method InsertNode(oldNode: Node, value: Ptr, after: bool, ghost p: nat)
      requires Valid() && p < |nodes| && nodes[p] == oldNode
      modifies this`head, this`tail, this`len, this`nodes, nodes`prev, nodes`next
      ensures Valid()
      ensures var q := if after then p + 1 else p;
              |nodes| == |old(nodes)| + 1 && fresh(nodes[q]) && nodes[q].value == value && RemoveAt(nodes, q) == old(nodes)
    {
      hide InsertAt;
      hide RemoveAt;
      var node := new Node(value);
      ghost var q := if after then p + 1 else p;
      assert LinkAt(nodes, p);
      if after {
        node.prev := oldNode;
        node.next := oldNode.next;
        if tail == oldNode { tail := node; }
      } else {
        node.next := oldNode;
        node.prev := oldNode.prev;
        if head == oldNode { head := node; }
      }
      LinkIn(node, q);
      Inserted(old(nodes), q, node);
    }

    /** The second half of listInsertNode: the neighbours of the new node come to point to it. */
    method LinkIn(node: Node, ghost q: nat)
      requires len == |nodes| && q <= len && Distinct(nodes) && Linked(nodes) && node !in nodes
      requires node.prev == (if q == 0 then null else nodes[q - 1]) && node.next == (if q == len then null else nodes[q])
      requires head == (if q == 0 then node else nodes[0]) && tail == (if q == len then node else nodes[len - 1])
      modifies this`len, this`nodes, nodes`prev, nodes`next
      ensures Valid() && nodes == InsertAt(old(nodes), q, node)
    {
      hide InsertAt;
      ghost var ns := nodes;
      if node.prev != null { node.prev.next := node; }
      if node.next != null { node.next.prev := node; }
      len := len + 1;
      nodes := InsertAt(ns, q, node);
      Inserted(ns, q, node);
      assert LinkAt(nodes, q);
      forall k | 0 <= k < q ensures LinkAt(nodes, k) {
        assert old(LinkAt(ns, k));
      }
      forall k | q < k < |nodes| ensures LinkAt(nodes, k) {
        assert old(LinkAt(ns, k - 1));
      }
    }

    /** listDelNode: p is the place of the node. */
    method DelNode(node: Node, ghost p: nat)
      requires Valid() && p < |nodes| && nodes[p] == node
      modifies this`head, this`tail, this`len, this`nodes, nodes`prev, nodes`next
      ensures Valid() && nodes == RemoveAt(old(nodes), p)
    {
      ghost var ns := nodes;
      assert LinkAt(ns, p);
      if node.prev != null { node.prev.next := node.next; } else { head := node.next; }
      if node.next != null { node.next.prev := node.prev; } else { tail := node.prev; }
      len := len - 1;
      nodes := RemoveAt(ns, p);
      assert ns == ns[..p] + [node] + ns[p + 1..];
      forall k | 0 <= k < p ensures LinkAt(nodes, k) {
        assert nodes[k] == ns[k] && old(LinkAt(ns, k));
      }
      forall k | p <= k < |nodes| ensures LinkAt(nodes, k) {
        assert nodes[k] == ns[k + 1] && old(LinkAt(ns, k + 1));
      }
      assert Distinct(nodes);
    }

    /** listSearchKey: the first node that matches, by the match method or by equality. */
    method SearchKey(key: Ptr) returns (found: Node?)
      requires Valid()
      ensures found == FirstMatch(nodes, matches, key)
    {
      hide Linked;
      hide Distinct;
      hide Missed;
      hide FirstMatch;
      var iter := new ListIter.FromHead(this);
      ghost var before: seq<Node>, after: seq<Node> := [], nodes;
      MissedNone(matches, key);
      while true
        invariant fresh(iter) && iter.direction == StartHead && iter.Ahead(this, before, after)
        invariant nodes == before + after && Missed(before, matches, key)
        decreases |after|
      {
        var node := iter.Next(this, before, after);
        if node == null { break; }
        ghost var n: Node := node;
        Shift(before, n, after);
        after := after[1..];
        if Matches(matches, n.value, key) {
          MatchFound(before, n, after, matches, key);
        }
        if matches.Some? {
          if matches.value(node.value, key) { return node; }
        } else {
          if key == node.value { return node; }
        }
        MissedSnoc(before, n, matches, key);
        before := before + [n];
      }
      assert before + [] == before;
      MatchMissing(nodes, matches, key);
      return null;
    }

    /** listIndex: negative positions count from the tail. */
    method Index(index: int) returns (n: Node?)
      requires Valid()
      ensures n == if 0 <= index < |nodes| then nodes[index]
                   else if -|nodes| <= index < 0 then nodes[|nodes| + index]
                   else null
    {
      if index < 0 {
        var k := -index - 1;
        n := tail;
        while k != 0 && n != null
          invariant 0 <= k <= -index - 1
          invariant var at := |nodes| + index + k; n == if at < 0 then null else nodes[at]
          decreases k
        {
          assert LinkAt(nodes, |nodes| + index + k);
          n := n.prev;
          k := k - 1;
        }
      } else {
        var k := index;
        n := head;
        while k != 0 && n != null
          invariant 0 <= k <= index
          invariant n == if index - k < |nodes| then nodes[index - k] else null
          decreases k
        {
          assert LinkAt(nodes, index - k);
          n := n.next;
          k := k - 1;
        }
      }
    }

    /** listRotateTailToHead */
    method RotateTailToHead()
      requires Valid()
      modifies this`head, this`tail, this`nodes, nodes`prev, nodes`next
      ensures Valid() && nodes == LastToFront(old(nodes))
    {
      if len <= 1 { return; }
      ghost var ns, z := nodes, |nodes| - 1;
      assert LinkAt(ns, z) && LinkAt(ns, z - 1) && LinkAt(ns, 0);
      var last := tail;
      tail := last.prev;
      tail.next := null;
      head.prev := last;
      last.prev := null;
      last.next := head;
      head := last;
      nodes := LastToFront(ns);
      assert forall k :: 0 <= k < |nodes| ==> nodes[k] == ns[if k == 0 then z else k - 1];
      forall k | 0 <= k < |nodes| ensures LinkAt(nodes, k) {
        assert old(LinkAt(ns, if k == 0 then z else k - 1));
      }
      assert Distinct(nodes);
    }

    /** listRotateHeadToTail */
    method RotateHeadToTail()
      requires Valid()
      modifies this`head, this`tail, this`nodes, nodes`prev, nodes`next
      ensures Valid() && nodes == FrontToLast(old(nodes))
    {
      if len <= 1 { return; }
      ghost var ns, z := nodes, |nodes| - 1;
      assert LinkAt(ns, 0) && LinkAt(ns, 1) && LinkAt(ns, z);
      var first := head;
      head := first.next;
      head.prev := null;
      tail.next := first;
      first.next := null;
      first.prev := tail;
      tail := first;
      nodes := FrontToLast(ns);
      assert forall k :: 0 <= k < |nodes| ==> nodes[k] == ns[if k == z then 0 else k + 1];
      forall k | 0 <= k < |nodes| ensures LinkAt(nodes, k) {
        assert old(LinkAt(ns, if k == z then 0 else k + 1));
      }
      assert Distinct(nodes);
    }

    /** listJoin: the nodes of the other list move behind this one's. */
    method Join(o: List)
      requires Valid() && o.Valid() && o != this
      requires forall i, j :: 0 <= i < |nodes| && 0 <= j < |o.nodes| ==> nodes[i] != o.nodes[j]
      modifies this`head, this`tail, this`len, this`nodes, nodes`prev, nodes`next, o`head, o`tail, o`len, o`nodes, o.nodes`prev, o.nodes`next
      ensures Valid() && nodes == old(nodes) + old(o.nodes)
      ensures o.Valid() && o.nodes == []
    {
      ghost var ns, ms := nodes, o.nodes;
      if o.head != null { o.head.prev := tail; }
      if tail != null { tail.next := o.head; } else { head := o.head; }
      if o.tail != null { tail := o.tail; }
      len := len + o.len;
      nodes := ns + ms;
      o.head, o.tail, o.len, o.nodes := null, null, 0, [];
      DistinctConcat(ns, ms);
      forall k | 0 <= k < |nodes| ensures LinkAt(nodes, k) {
        if k < |ns| { assert old(LinkAt(ns, k)); } else { assert old(LinkAt(ms, k - |ns|)); }
      }
    }

    /** One step of listDup: the dup method's result goes behind the copy, unless it is NULL. */
    method AddCopy(original: Ptr) returns (ok: bool)
      requires Valid()
      modifies this`head, this`tail, this`len, this`nodes, nodes`prev, nodes`next
      ensures ok == !DupFailsOn(original, dup)
      ensures ok ==> Valid() && |nodes| == |old(nodes)| + 1 && nodes == old(nodes) + [nodes[|old(nodes)|]]
      ensures ok ==> fresh(nodes[|old(nodes)|]) && nodes[|old(nodes)|].value == DupOne(original, dup)
    {
      var value := original;
      if dup.Some? {
        value := dup.value(original);
        if value == NULL { return false; }
      }
      AddNodeTail(value);
      return true;
    }

    /** The loop of listDup, which fills this list. */
    method CopyNodes(orig: List) returns (ok: bool)
      requires Valid() && nodes == [] && orig.Valid() && orig != this
      modifies this`head, this`tail, this`len, this`nodes
      ensures ok ==> Valid() && fresh(nodes) && DupAll(ValuesOf(orig.nodes), dup) == Some(ValuesOf(nodes))
      ensures !ok ==> DupAll(ValuesOf(orig.nodes), dup) == None
    {
      hide List.Valid;
      hide Linked;
      hide Distinct;
      hide ListIter.Ahead;
      hide DupAll;
      hide DupFailsOn;
      hide ValuesOf;
      ghost var all: seq<Node>, passed: seq<Node>, todo: seq<Node> := orig.nodes, [], orig.nodes;
      assert [] + all == all;
      NothingCopied(dup);
      var iter := new ListIter.FromHead(orig);
      while true
        invariant fresh(iter) && iter.direction == StartHead && orig.nodes == all == passed + todo
        invariant iter.Ahead(orig, passed, todo)
        invariant Valid() && forall i :: 0 <= i < |nodes| ==> fresh(nodes[i])
        invariant DupAll(ValuesOf(passed), dup) == Some(ValuesOf(nodes))
        decreases |todo|
      {
        var node := iter.Next(orig, passed, todo);
        if node == null { break; }
        ghost var was, n: Node := nodes, node;
        CopyStep(passed, n, todo[1..], was, dup);
        Shift(passed, n, todo);
        var added := AddCopy(node.value);
        if !added { return false; }
        ValuesSnoc(was, nodes[|was|]);
        passed, todo := passed + [n], todo[1..];
      }
      assert passed + [] == passed;
      return true;
    }

    /** listDup: a copy of fresh nodes, or null when the dup method fails; the original list is
        not in the modifies clause. */
    method Dup() returns (copy: List?)
      requires Valid()
      ensures copy == null <==> DupAll(ValuesOf(nodes), dup) == None
      ensures copy != null ==> fresh(copy) && copy.Valid() && fresh(copy.nodes)
      ensures copy != null ==> DupAll(ValuesOf(nodes), dup) == Some(ValuesOf(copy.nodes))
      ensures copy != null ==> copy.dup == dup && copy.matches == matches
    {
      copy := new List();
      copy.dup := dup;
      copy.matches := matches;
      var ok := copy.CopyNodes(this);
      if !ok { return null; }
    }
  }

  lemma Shift(a: seq<Node>, n: Node, b: seq<Node>)
    requires b != [] && b[0] == n
    ensures a + b == a + [n] + b[1..]
  {
  }

  lemma ShiftBack(a: seq<Node>, n: Node, b: seq<Node>)
    requires a != [] && a[|a| - 1] == n
    ensures a + b == a[..|a| - 1] + ([n] + b)
  {
  }

  ghost function ValuesOf(ns: seq<Node>): seq<Ptr>
    reads ns`value
  {
    if ns == [] then [] else ValuesOf(ns[..|ns| - 1]) + [ns[|ns| - 1].value]
  }

  lemma ValuesSnoc(ns: seq<Node>, n: Node)
    ensures ValuesOf(ns + [n]) == ValuesOf(ns) + [n.value]
  {
    assert (ns + [n])[..|ns|] == ns;
  }

  /** The values of a copy, or None when the dup method fails on one of them. */
  function DupAll(vs: seq<Ptr>, dup: Option<Ptr -> Ptr>): Option<seq<Ptr>> {
    if vs == [] then Some([])
    else
      var front, last := DupAll(vs[..|vs| - 1], dup), vs[|vs| - 1];
      if front.None? || DupFailsOn(last, dup) then None else Some(front.value + [DupOne(last, dup)])
  }

  lemma NothingCopied(dup: Option<Ptr -> Ptr>)
    ensures DupAll(ValuesOf([]), dup) == Some(ValuesOf([]))
  {
  }

  /** One more node copied, or the whole copy fails there. */
  lemma CopyStep(passed: seq<Node>, n: Node, rest: seq<Node>, copied: seq<Node>, dup: Option<Ptr -> Ptr>)
    requires DupAll(ValuesOf(passed), dup) == Some(ValuesOf(copied))
    ensures DupFailsOn(n.value, dup) ==> DupAll(ValuesOf(passed + [n] + rest), dup) == None
    ensures !DupFailsOn(n.value, dup) ==>
              DupAll(ValuesOf(passed + [n]), dup) == Some(ValuesOf(copied) + [DupOne(n.value, dup)])
  {
    ValuesSnoc(passed, n);
    var vs := ValuesOf(passed) + [n.value];
    assert vs[..|vs| - 1] == ValuesOf(passed);
    if DupFailsOn(n.value, dup) {
      StaysFailed(passed + [n], rest, dup);
    }
  }

  lemma {:induction false} StaysFailed(ns: seq<Node>, rest: seq<Node>, dup: Option<Ptr -> Ptr>)
    requires DupAll(ValuesOf(ns), dup) == None
    ensures DupAll(ValuesOf(ns + rest), dup) == None
    decreases |rest|
  {
    if rest == [] {
      assert ns + rest == ns;
    } else {
      var z := |rest| - 1;
      StaysFailed(ns, rest[..z], dup);
      assert ns + rest == ns + rest[..z] + [rest[z]];
      ValuesSnoc(ns + rest[..z], rest[z]);
      var vs := ValuesOf(ns + rest[..z]) + [rest[z].value];
      assert vs[..|vs| - 1] == ValuesOf(ns + rest[..z]);
    }
  }

  /** No node of these matches. */
  ghost predicate Missed(ns: seq<Node>, matches: Option<(Ptr, Ptr) -> bool>, key: Ptr)
    reads ns`value
  {
    forall i :: 0 <= i < |ns| ==> !Matches(matches, ns[i].value, key)
  }

  /** The first node that matches, or null. */
  ghost function FirstMatch(ns: seq<Node>, matches: Option<(Ptr, Ptr) -> bool>, key: Ptr): Node?
    reads ns`value
  {
    if ns == [] then null
    else if Matches(matches, ns[0].value, key) then ns[0]
    else FirstMatch(ns[1..], matches, key)
  }

  lemma {:induction false} MatchFound(before: seq<Node>, n: Node, after: seq<Node>, matches: Option<(Ptr, Ptr) -> bool>, key: Ptr)
    requires Missed(before, matches, key) && Matches(matches, n.value, key)
    ensures FirstMatch(before + [n] + after, matches, key) == n
  {
    if before != [] {
      assert !Matches(matches, before[0].value, key);
      assert (before + [n] + after)[1..] == before[1..] + [n] + after;
      MatchFound(before[1..], n, after, matches, key);
    }
  }

  lemma {:induction false} MatchMissing(ns: seq<Node>, matches: Option<(Ptr, Ptr) -> bool>, key: Ptr)
    requires Missed(ns, matches, key)
    ensures FirstMatch(ns, matches, key) == null
  {
    if ns != [] {
      assert !Matches(matches, ns[0].value, key);
      MatchMissing(ns[1..], matches, key);
    }
  }

  lemma MissedNone(matches: Option<(Ptr, Ptr) -> bool>, key: Ptr)
    ensures Missed([], matches, key)
  {
  }

  lemma MissedSnoc(ns: seq<Node>, n: Node, matches: Option<(Ptr, Ptr) -> bool>, key: Ptr)
    requires Missed(ns, matches, key) && !Matches(matches, n.value, key)
    ensures Missed(ns + [n], matches, key)
  {
  }

  function LastToFront<A>(s: seq<A>): seq<A> {
    if |s| <= 1 then s else [s[|s| - 1]] + s[..|s| - 1]
  }

  function FrontToLast<A>(s: seq<A>): seq<A> {
    if |s| <= 1 then s else s[1..] + [s[0]]
  }

  datatype Direction = StartHead | StartTail

  class ListIter {
    var next: Node?
    var direction: Direction

    /** The list is the nodes already passed and those the iterator has still to return, which
        it does in the order of its direction. */
    ghost predicate Ahead(l: List, passed: seq<Node>, todo: seq<Node>)
      reads this, l, l.nodes
    {
      && l.Valid()
      && (match direction
          case StartHead => l.nodes == passed + todo && next == First(todo)
          case StartTail => l.nodes == todo + passed && next == Last(todo))
    }

    /** listGetIterator(AL_START_HEAD), listRewind */
    constructor FromHead(l: List)
      requires l.Valid()
      ensures direction == StartHead && Ahead(l, [], l.nodes)
    {
      next := l.head;
      direction := StartHead;
      assert [] + l.nodes == l.nodes;
    }

    /** listGetIterator(AL_START_TAIL), listRewindTail */
    constructor FromTail(l: List)
      requires l.Valid()
      ensures direction == StartTail && Ahead(l, [], l.nodes)
    {
      next := l.tail;
      direction := StartTail;
      assert l.nodes + [] == l.nodes;
    }

    /** listNext: returns the nodes one by one, in the order of the direction. */
    method Next(ghost l: List, ghost passed: seq<Node>, ghost todo: seq<Node>) returns (current: Node?)
      requires Ahead(l, passed, todo)
      modifies this`next
      ensures todo == [] ==> current == null && Ahead(l, passed, [])
      ensures todo != [] && direction == StartHead ==>
                current == todo[0] && Ahead(l, passed + [todo[0]], todo[1..])
      ensures todo != [] && direction == StartTail ==>
                current == todo[|todo| - 1] && Ahead(l, [todo[|todo| - 1]] + passed, todo[..|todo| - 1])
    {
      hide Distinct;
      current := next;
      if current != null {
        ghost var at := if direction == StartHead then |passed| else |todo| - 1;
        assert LinkAt(l.nodes, at);
        if direction == StartHead { next := current.next; } else { next := current.prev; }
        assert direction == StartHead ==> passed + todo == passed + [todo[0]] + todo[1..];
        assert direction == StartTail ==> todo + passed == todo[..at] + ([todo[at]] + passed);
      }
    }

    /** Deleting a node the iterator has passed, such as the one just returned: the iteration goes
        on over the same nodes. */
    method DeletePassed(l: List, node: Node, ghost a: seq<Node>, ghost b: seq<Node>, ghost todo: seq<Node>)
      requires Ahead(l, a + [node] + b, todo)
      modifies l`head, l`tail, l`len, l`nodes, l.nodes`prev, l.nodes`next
      ensures Ahead(l, a + b, todo) && l.Valid()
      ensures l.nodes == if direction == StartHead then a + b + todo else todo + (a + b)
    {
      hide Linked;
      hide Distinct;
      ghost var p := if direction == StartHead then |a| else |todo| + |a|;
      RemoveBefore(a, node, b, todo);
      RemoveBehind(todo, a, node, b);
      l.DelNode(node, p);
    }

    /** Deleting a node still to come, at place i of those: the iterator goes on over the others,
        except that when it is the next one the iterator is left pointing to a freed node. */
    method DeletePending(l: List, node: Node, ghost passed: seq<Node>, ghost a: seq<Node>, ghost b: seq<Node>)
      requires Ahead(l, passed, a + [node] + b)
      modifies l`head, l`tail, l`len, l`nodes, l.nodes`prev, l.nodes`next
      ensures l.Valid()
      ensures node != next ==> Ahead(l, passed, a + b)
      ensures node == next ==> next !in l.nodes
    {
      hide Linked;
      ghost var p := if direction == StartHead then |passed| + |a| else |a|;
      RemoveBefore(a, node, b, passed);
      RemoveBehind(passed, a, node, b);
      GoneFrom(l.nodes, p);
      assert direction == StartHead && a != [] ==> First(a + b) == First(a + [node] + b);
      assert direction == StartTail && b != [] ==> Last(a + b) == Last(a + [node] + b);
      hide Distinct;
      l.DelNode(node, p);
    }
  }

  lemma RemoveBefore(a: seq<Node>, n: Node, b: seq<Node>, c: seq<Node>)
    ensures (a + [n] + b + c)[|a|] == n && RemoveAt(a + [n] + b + c, |a|) == a + b + c
  {
  }

  lemma RemoveBehind(c: seq<Node>, a: seq<Node>, n: Node, b: seq<Node>)
    ensures (c + (a + [n] + b))[|c| + |a|] == n && RemoveAt(c + (a + [n] + b), |c| + |a|) == c + (a + b)
  {
  }

  lemma GoneFrom(ns: seq<Node>, p: nat)
    requires p < |ns| && Distinct(ns)
    ensures ns[p] !in RemoveAt(ns, p)
  {
  }

  // ----- the documented loop: iterate and delete some of the nodes returned ----

  ghost function Kept(ns: seq<Node>, drop: Ptr -> bool): seq<Node>
    reads ns`value
  {
    if ns == [] then []
    else (if drop(ns[0].value) then [] else [ns[0]]) + Kept(ns[1..], drop)
  }

  lemma {:induction false} KeptConcat(a: seq<Node>, b: seq<Node>, drop: Ptr -> bool)
    ensures Kept(a + b, drop) == Kept(a, drop) + Kept(b, drop)
  {
    if a == [] {
      assert a + b == b;
    } else {
      assert (a + b)[1..] == a[1..] + b;
      KeptConcat(a[1..], b, drop);
    }
  }

  lemma KeptOne(n: Node, drop: Ptr -> bool)
    ensures Kept([n], drop) == if drop(n.value) then [] else [n]
  {
  }

  lemma KeptSnoc(ns: seq<Node>, n: Node, drop: Ptr -> bool)
    ensures Kept(ns + [n], drop) == if drop(n.value) then Kept(ns, drop) else Kept(ns, drop) + [n]
  {
    KeptConcat(ns, [n], drop);
    KeptOne(n, drop);
  }

  lemma KeptCons(n: Node, ns: seq<Node>, drop: Ptr -> bool)
    ensures Kept([n] + ns, drop) == if drop(n.value) then Kept(ns, drop) else [n] + Kept(ns, drop)
  {
    KeptConcat([n], ns, drop);
    KeptOne(n, drop);
  }

  lemma KeptNone(drop: Ptr -> bool)
    ensures Kept([], drop) == []
  {
  }

  lemma {:induction false} KeptWithin(visited: seq<Node>, todo: seq<Node>, drop: Ptr -> bool)
    ensures forall i :: 0 <= i < |Kept(visited, drop) + todo| ==> (Kept(visited, drop) + todo)[i] in visited + todo
    ensures forall i :: 0 <= i < |todo + Kept(visited, drop)| ==> (todo + Kept(visited, drop))[i] in todo + visited
  {
    KeptFrom(visited, drop);
    assert forall n :: n in visited || n in todo ==> n in visited + todo && n in todo + visited;
  }

  lemma {:induction false} KeptFrom(ns: seq<Node>, drop: Ptr -> bool)
    ensures forall i :: 0 <= i < |Kept(ns, drop)| ==> Kept(ns, drop)[i] in ns
  {
    if ns != [] {
      KeptFrom(ns[1..], drop);
    }
  }

  /** From the head: every node is returned exactly once, in order, and exactly the dropped ones
      are gone. */
  method PurgeFromHead(l: List, drop: Ptr -> bool) returns (ghost visited: seq<Node>)
    requires l.Valid()
    modifies l`head, l`tail, l`len, l`nodes, l.nodes`prev, l.nodes`next
    ensures l.Valid() && visited == old(l.nodes) && l.nodes == Kept(old(l.nodes), drop)
  {
    hide Kept;
    hide Linked;
    hide Distinct;
    hide List.Valid;
    hide ListIter.Ahead;
    ghost var all, todo, passed := l.nodes, l.nodes, [];
    visited := [];
    assert [] + all == all && Kept([], drop) == [] by { KeptNone(drop); }
    var iter := new ListIter.FromHead(l);
    while true
      invariant fresh(iter) && iter.direction == StartHead
      invariant visited + todo == all && passed == Kept(visited, drop)
      invariant iter.Ahead(l, passed, todo)
      invariant l.Valid() && l.nodes == passed + todo
      decreases |todo|
    {
      var node := iter.Next(l, passed, todo);
      if node == null { break; }
      ghost var n: Node := node;
      KeptSnoc(visited, n, drop);
      Shift(visited, n, todo);
      Shift(passed, n, todo);
      if drop(node.value) {
        assert passed + [n] + [] == passed + [n] && passed + [] == passed;
        KeptWithin(visited, todo, drop);
        iter.DeletePassed(l, node, passed, [], todo[1..]);
      } else {
        passed := passed + [n];
      }
      visited := visited + [n];
      todo := todo[1..];
    }
    assert visited + [] == visited && passed + [] == passed;
  }

  /** From the tail: the same, and the nodes are returned last to first. */
  method PurgeFromTail(l: List, drop: Ptr -> bool) returns (ghost visited: seq<Node>)
    requires l.Valid()
    modifies l`head, l`tail, l`len, l`nodes, l.nodes`prev, l.nodes`next
    ensures l.Valid() && visited == old(l.nodes) && l.nodes == Kept(old(l.nodes), drop)
  {
    hide Kept;
    hide Linked;
    hide Distinct;
    hide List.Valid;
    hide ListIter.Ahead;
    ghost var all, todo, passed := l.nodes, l.nodes, [];
    visited := [];
    assert all + [] == all && Kept([], drop) == [] by { KeptNone(drop); }
    var iter := new ListIter.FromTail(l);
    while true
      invariant fresh(iter) && iter.direction == StartTail
      invariant todo + visited == all && passed == Kept(visited, drop)
      invariant iter.Ahead(l, passed, todo)
      invariant l.Valid() && l.nodes == todo + passed
      decreases |todo|
    {
      var node := iter.Next(l, passed, todo);
      if node == null { break; }
      ghost var n: Node := node;
      KeptCons(n, visited, drop);
      ShiftBack(todo, n, visited);
      ShiftBack(todo, n, passed);
      ghost var rest := todo[..|todo| - 1];
      if drop(node.value) {
        NothingBefore([n]);
        NothingBefore(passed);
        KeptWithin(visited, todo, drop);
        iter.DeletePassed(l, node, [], passed, rest);
      } else {
        passed := [n] + passed;
      }
      visited := [n] + visited;
      todo := rest;
    }
    NothingBefore(visited);
    NothingBefore(passed);
  }

  lemma NothingBefore<A>(a: seq<A>)
    ensures [] + a == a
  {
  }

  // ----- rotation -----------------------------------------------------------

  function Rotations<A>(s: seq<A>, n: nat): (r: seq<A>)
    ensures |r| == |s|
  {
    if n == 0 then s else FrontToLast(Rotations(s, n - 1))
  }

  /** The two rotations undo each other. */
  lemma RotationsUndo<A>(s: seq<A>)
    ensures LastToFront(FrontToLast(s)) == s && FrontToLast(LastToFront(s)) == s
  {
  }

  lemma {:induction false} RotationsShift<A>(s: seq<A>, n: nat)
    requires n <= |s|
    ensures Rotations(s, n) == s[n..] + s[..n]
  {
    if n > 0 {
      RotationsShift(s, n - 1);
      if |s| > 1 {
        assert s[n - 1..] == [s[n - 1]] + s[n..];
        assert s[..n] == s[..n - 1] + [s[n - 1]];
      }
    }
  }

  /** Rotating as many times as there are nodes brings every node back to its place. */
  lemma RotationCycle<A>(s: seq<A>)
    ensures Rotations(s, |s|) == s
  {
    RotationsShift(s, |s|);
  }
}
