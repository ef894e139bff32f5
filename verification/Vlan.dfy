/**
  VLAN ranges of app/lib/dbcollect.py: the exchange sort, the range compressor and the range
  expander.
 */
module Vlan {
  import opened Text
  import D = Decimal

  // ----- BubbleSort ---------------------------------------------------------

  predicate Sorted(s: seq<int>) {
    forall i, k :: 0 <= i < k < |s| ==> s[i] <= s[k]
  }

  method Swap(a: array<int>, i: nat, j: nat)
    requires i < a.Length && j < a.Length
    modifies a
    ensures a[i] == old(a[j]) && a[j] == old(a[i])
    ensures forall k :: 0 <= k < a.Length && k != i && k != j ==> a[k] == old(a[k])
    ensures multiset(a[..]) == old(multiset(a[..]))
  {
    a[i], a[j] := a[j], a[i];
  }

  /** One round: the candidate at place i moves into the sorted front, and place i ends up with
      the maximum of the list. */
  method Round(a: array<int>, i: nat)
    requires i < a.Length
    requires forall p, q :: 0 <= p < q < i ==> a[p] <= a[q]
    requires i > 0 ==> forall p :: 0 <= p < a.Length ==> a[p] <= a[i - 1]
    modifies a
    ensures forall p, q :: 0 <= p < q <= i ==> a[p] <= a[q]
    ensures forall p :: 0 <= p < a.Length ==> a[p] <= a[i]
    ensures multiset(a[..]) == old(multiset(a[..]))
  {
    var j := 0;
    while j < a.Length
      invariant 0 <= j <= a.Length
      invariant multiset(a[..]) == old(multiset(a[..]))
      invariant forall p, q :: 0 <= p < q < i ==> a[p] <= a[q]
      invariant forall p :: 0 <= p < j ==> a[p] <= a[i]
      invariant j <= i && i > 0 ==> forall p :: 0 <= p < a.Length ==> a[p] <= a[i - 1] || (j == i && a[p] <= a[i])
      invariant j < i ==> forall p :: 0 <= p < a.Length ==> a[p] <= a[i - 1]
      invariant j >= i && i > 0 ==> forall p :: 0 <= p < a.Length ==> a[p] <= a[i]
    {
      if a[i] < a[j] {
        Swap(a, i, j);
      }
      j := j + 1;
    }
  }

  /** BubbleSort: the inner loop restarts at 0 and exchanges on lst[i] < lst[j]; the same list
      object ends up holding an ascending permutation of its input. */
  method BubbleSort(lst: array<int>)
    modifies lst
    ensures Sorted(lst[..])
    ensures multiset(lst[..]) == old(multiset(lst[..]))
  {
    var i := 0;
    while i < lst.Length
      invariant 0 <= i <= lst.Length
      invariant forall p, q :: 0 <= p < q < i ==> lst[p] <= lst[q]
      invariant i > 0 ==> forall p :: 0 <= p < lst.Length ==> lst[p] <= lst[i - 1]
      invariant multiset(lst[..]) == old(multiset(lst[..]))
    {
      Round(lst, i);
      i := i + 1;
    }
  }

  /** The ascending arrangement of a list, by insertion. */
  function Ascending(s: seq<int>): seq<int> {
    if s == [] then [] else Insert(s[0], Ascending(s[1..]))
  }

  function Insert(x: int, s: seq<int>): seq<int> {
    if s == [] || x <= s[0] then [x] + s else [s[0]] + Insert(x, s[1..])
  }

  lemma ConsSorted(x: int, s: seq<int>)
    requires Sorted(s) && (s == [] || x <= s[0])
    ensures Sorted([x] + s)
  {
  }

  lemma {:induction false} InsertIsSorted(x: int, s: seq<int>)
    requires Sorted(s)
    ensures Sorted(Insert(x, s))
    ensures Insert(x, s) != [] && (Insert(x, s)[0] == x || (s != [] && Insert(x, s)[0] == s[0]))
  {
    if s == [] || x <= s[0] {
      ConsSorted(x, s);
    } else {
      var t := s[1..];
      assert Sorted(t) && (t != [] ==> s[0] <= t[0]);
      InsertIsSorted(x, t);
      hide Sorted;
      ConsSorted(s[0], Insert(x, t));
    }
  }

  lemma {:induction false} InsertPermutes(x: int, s: seq<int>)
    ensures multiset(Insert(x, s)) == multiset(s) + multiset{x}
  {
    if s != [] && x > s[0] {
      InsertPermutes(x, s[1..]);
      assert s == [s[0]] + s[1..];
    }
  }

  lemma {:induction false} AscendingIsSorted(s: seq<int>)
    ensures Sorted(Ascending(s)) && multiset(Ascending(s)) == multiset(s)
  {
    if s != [] {
      AscendingIsSorted(s[1..]);
      InsertIsSorted(s[0], Ascending(s[1..]));
      InsertPermutes(s[0], Ascending(s[1..]));
      assert s == [s[0]] + s[1..];
    }
  }

  lemma LeastFirst(a: seq<int>, x: int)
    requires Sorted(a) && x in multiset(a)
    ensures a != [] && a[0] <= x
  {
  }

  /** There is only one ascending arrangement. */
  lemma {:induction false} SortedUnique(a: seq<int>, b: seq<int>)
    requires Sorted(a) && Sorted(b) && multiset(a) == multiset(b)
    ensures a == b
    decreases |a|
  {
    if a == [] {
      assert |multiset(b)| == 0;
    } else {
      SameHead(a, b);
      SortedTail(a);
      SortedTail(b);
      SortedUnique(a[1..], b[1..]);
      SameSequence(a, b);
    }
  }

  lemma SameHead(a: seq<int>, b: seq<int>)
    requires Sorted(a) && Sorted(b) && multiset(a) == multiset(b) && a != []
    ensures b != [] && a[0] == b[0]
  {
    hide Sorted;
    assert a[0] in multiset(a);
    LeastFirst(b, a[0]);
    assert b[0] in multiset(b);
    LeastFirst(a, b[0]);
  }

  lemma SameSequence(a: seq<int>, b: seq<int>)
    requires a != [] && b != [] && a[0] == b[0] && a[1..] == b[1..]
    ensures a == b
  {
    assert a == [a[0]] + a[1..] && b == [b[0]] + b[1..];
  }

  lemma SortedTail(a: seq<int>)
    requires Sorted(a) && a != []
    ensures Sorted(a[1..]) && multiset(a[1..]) == multiset(a) - multiset{a[0]}
  {
    assert a == [a[0]] + a[1..];
  }

  // ----- CombineRanges ------------------------------------------------------

  datatype Range = Range(lo: int, hi: int)

  /** Length of the first group: numbers that go up by one, so that value minus index, the
      grouping key, stays the same. */
  function RunLength(s: seq<int>): (k: nat)
    requires s != []
    ensures 1 <= k <= |s|
  {
    if |s| >= 2 && s[1] == s[0] + 1 then 1 + RunLength(s[1..]) else 1
  }

  lemma {:induction false} RunFacts(s: seq<int>)
    requires s != []
    ensures var k := RunLength(s);
            && s[k - 1] == s[0] + k - 1
            && (forall i :: 0 <= i < k ==> s[i] == s[0] + i)
            && (k < |s| ==> s[k] != s[k - 1] + 1)
  {
    if |s| >= 2 && s[1] == s[0] + 1 {
      RunFacts(s[1..]);
      assert forall i :: 1 <= i < |s| ==> s[i] == s[1..][i - 1];
    }
  }

  function Ranges(s: seq<int>): seq<Range> {
    if s == [] then []
    else
      var k := RunLength(s);
      [Range(s[0], s[k - 1])] + Ranges(s[k..])
  }

  function RangeText(r: Range): string {
    if r.lo == r.hi then D.PrintInt(r.lo) else D.PrintInt(r.lo) + ['-'] + D.PrintInt(r.hi)
  }

  function RangeTexts(rs: seq<Range>): (ts: seq<string>)
    ensures |ts| == |rs| && forall i :: 0 <= i < |rs| ==> ts[i] == RangeText(rs[i])
  {
    if rs == [] then [] else [RangeText(rs[0])] + RangeTexts(rs[1..])
  }

  /** The text made from a sorted list. */
  function Combined(s: seq<int>): string {
    Join(RangeTexts(Ranges(s)), ',')
  }

  /** ConventInt: int() of every id; None is the ValueError. */
  function Ints(vlan: seq<string>): Option<seq<int>> {
    if vlan == [] then Some([])
    else
      var first, rest := PyInt(vlan[0]), Ints(vlan[1..]);
      if first.None? || rest.None? then None else Some([first.value] + rest.value)
  }

  method ConventInt(vlan: seq<string>) returns (res: Option<seq<int>>)
    ensures res == Ints(vlan)
  {
    hide PyInt;
    var list: seq<int> := [];
    assert vlan[0..] == vlan && forall t: seq<int> :: list + t == t;
    for i := 0 to |vlan|
      invariant var rest := Ints(vlan[i..]);
                Ints(vlan) == if rest.None? then None else Some(list + rest.value)
    {
      assert vlan[i..][1..] == vlan[i + 1..];
      var n := PyInt(vlan[i]);
      if n.None? { return None; }
      Resplit(list, n.value, Ints(vlan[i + 1..]));
      list := list + [n.value];
    }
    assert vlan[|vlan|..] == [] && list + [] == list;
    return Some(list);
  }

  lemma Resplit<T>(a: seq<T>, x: T, rest: Option<seq<T>>)
    ensures rest.Some? ==> a + ([x] + rest.value) == (a + [x]) + rest.value
  {
  }

  /** The end of the group that starts at i: consecutive places with the same value minus index. */
  method GroupEnd(lst: seq<int>, i: nat) returns (j: nat)
    requires i < |lst|
    ensures i < j <= |lst|
    ensures forall k :: i <= k < j ==> lst[k] - k == lst[i] - i
    ensures j < |lst| ==> lst[j] - j != lst[i] - i
  {
    j := i + 1;
    while j < |lst| && lst[j] - j == lst[i] - i
      invariant i < j <= |lst|
      invariant forall k :: i <= k < j ==> lst[k] - k == lst[i] - i
    {
      j := j + 1;
    }
  }

  /** The texts of all groups. */
  method RangeList(order: seq<int>) returns (rangeList: seq<string>)
    ensures rangeList == RangeTexts(Ranges(order))
  {
    hide RunLength;
    hide D.Print;
    rangeList := [];
    var i := 0;
    ghost var all := RangeTexts(Ranges(order));
    assert order[0..] == order && [] + all == all;
    while i < |order|
      invariant 0 <= i <= |order|
      invariant rangeList + RangeTexts(Ranges(order[i..])) == all
    {
      var j := GroupEnd(order, i);
      GroupIsRun(order, i, j);
      var scop := if j - i > 1 then D.PrintInt(order[i]) + ['-'] + D.PrintInt(order[j - 1]) else D.PrintInt(order[i]);
      TextsMove(rangeList, Range(order[i], order[j - 1]), Ranges(order[j..]));
      rangeList := rangeList + [scop];
      i := j;
    }
    assert order[i..] == [] && Ranges([]) == [] && rangeList + [] == rangeList;
  }

  lemma TextsMove(done: seq<string>, r: Range, rest: seq<Range>)
    ensures done + RangeTexts([r] + rest) == (done + [RangeText(r)]) + RangeTexts(rest)
  {
    assert ([r] + rest)[1..] == rest;
  }

  /** CombineRanges: None when some id is not an integer; otherwise the ranges of all ids in
      ascending order. */
  method CombineRanges(publicvlan: seq<string>, privatevlan: seq<string>) returns (text: Option<string>)
    ensures var ids := Ints(publicvlan + privatevlan);
            text == if ids.None? then None else Some(Combined(Ascending(ids.value)))
  {
    var vlans := ConventInt(publicvlan + privatevlan);
    if vlans.None? { return None; }
    var ids := vlans.value;
    var lst := new int[|ids|](i requires 0 <= i < |ids| => ids[i]);
    assert lst[..] == ids;
    BubbleSort(lst);
    AscendingIsSorted(ids);
    SortedUnique(lst[..], Ascending(ids));
    var rangeList := RangeList(lst[..]);
    text := Some(Join(rangeList, ','));
  }

  /** The group found by the grouping key is the run. */
  lemma GroupIsRun(s: seq<int>, i: nat, j: nat)
    requires i < j <= |s|
    requires forall k :: i <= k < j ==> s[k] - k == s[i] - i
    requires j < |s| ==> s[j] - j != s[i] - i
    ensures Ranges(s[i..]) == [Range(s[i], s[j - 1])] + Ranges(s[j..])
    ensures s[i] == s[j - 1] <==> j - i == 1
  {
    hide *;
    var t, n := s[i..], j - i;
    assert t[0] == s[i] && (n < |t| ==> t[n] == s[j]);
    forall k | 0 <= k < n ensures t[k] == t[0] + k {
      assert t[k] == s[i + k];
    }
    RunIs(t, n);
    RangesStep(t, n);
    assert t[n - 1] == s[j - 1] && t[n..] == s[j..];
  }

  lemma RangesStep(t: seq<int>, n: nat)
    requires t != [] && RunLength(t) == n
    ensures Ranges(t) == [Range(t[0], t[n - 1])] + Ranges(t[n..])
  {
  }

  lemma {:induction false} RunIs(t: seq<int>, n: nat)
    requires 1 <= n <= |t|
    requires forall k :: 0 <= k < n ==> t[k] == t[0] + k
    requires n < |t| ==> t[n] != t[0] + n
    ensures RunLength(t) == n
    decreases n
  {
    if n > 1 {
      assert t[1] == t[0] + 1;
      RunIs(t[1..], n - 1);
    }
  }

  // ----- SplitRanges --------------------------------------------------------

  function StripRight(s: string): string {
    if s != "" && IsSpace(s[|s| - 1]) then StripRight(s[..|s| - 1]) else s
  }

  /** Python's int(): surrounding white space, a sign, then digits; None is ValueError. */
  function PyInt(s: string): Option<int> {
    var t := StripRight(D.SkipSpace(s));
    var neg := t != "" && t[0] == '-';
    var body := if t != "" && (t[0] == '-' || t[0] == '+') then t[1..] else t;
    if body == "" || !D.AllDigits(body) then None
    else Some(if neg then 0 - D.Scan(body, 0) else D.Scan(body, 0))
  }

  /** str(j) for j from lo to hi. */
  function Numbers(lo: int, hi: int): seq<string>
    decreases hi - lo
  {
    if lo > hi then [] else [D.PrintInt(lo)] + Numbers(lo + 1, hi)
  }

  /** One part of the text, split at the dashes. */
  function ExpandPart(part: string): Option<seq<string>> {
    var ends := Split(part, '-');
    var lo, hi := PyInt(ends[0]), PyInt(ends[|ends| - 1]);
    if lo.None? || hi.None? then None else Some(Numbers(lo.value, hi.value))
  }

  function ExpandParts(parts: seq<string>): Option<seq<string>> {
    if parts == [] then Some([])
    else
      var first := ExpandPart(parts[0]);
      if first.None? then None
      else
        var rest := ExpandParts(parts[1..]);
        if rest.None? then None else Some(first.value + rest.value)
  }

  /** A part is an interval if the texts before its first and behind its last dash are integers. */
  predicate IsInterval(part: string) {
    var ends := Split(part, '-');
    PyInt(ends[0]).Some? && PyInt(ends[|ends| - 1]).Some?
  }

  /** The interval of the part holds the number. */
  predicate Holds(part: string, j: int) {
    IsInterval(part) &&
    var ends := Split(part, '-');
    PyInt(ends[0]).value <= j <= PyInt(ends[|ends| - 1]).value
  }

  lemma {:induction false} NumbersHave(lo: int, hi: int, x: string)
    ensures x in Numbers(lo, hi) <==> exists j {:trigger D.PrintInt(j)} :: lo <= j <= hi && x == D.PrintInt(j)
    decreases hi - lo
  {
    if lo <= hi {
      NumbersHave(lo + 1, hi, x);
      if x == D.PrintInt(lo) { assert lo <= lo <= hi && x == D.PrintInt(lo); }
    }
  }

  /** What a text with several parts expands to: a ValueError exactly if some part is no interval, and
      otherwise exactly the numbers of the intervals; an interval upside down has none. */
  lemma {:induction false} ExpandMeans(parts: seq<string>, x: string)
    ensures ExpandParts(parts).Some? <==> forall i :: 0 <= i < |parts| ==> IsInterval(parts[i])
    ensures ExpandParts(parts).Some? ==>
              (x in ExpandParts(parts).value <==>
               exists i, j {:trigger parts[i], D.PrintInt(j)} :: 0 <= i < |parts| && Holds(parts[i], j) && x == D.PrintInt(j))
    decreases |parts|
  {
    hide PyInt;
    hide Split;
    hide D.PrintInt;
    if parts != [] {
      ExpandMeans(parts[1..], x);
      assert forall i :: 1 <= i < |parts| ==> parts[i] == parts[1..][i - 1];
      if IsInterval(parts[0]) {
        var ends := Split(parts[0], '-');
        NumbersHave(PyInt(ends[0]).value, PyInt(ends[|ends| - 1]).value, x);
      }
      if ExpandParts(parts).Some? {
        InSome(parts, x);
      }
    }
  }

  lemma InSome(parts: seq<string>, x: string)
    requires parts != []
    ensures (exists i, j {:trigger parts[i], D.PrintInt(j)} :: 0 <= i < |parts| && Holds(parts[i], j) && x == D.PrintInt(j)) <==>
            || (exists j {:trigger D.PrintInt(j)} :: Holds(parts[0], j) && x == D.PrintInt(j))
            || (exists i, j {:trigger parts[1..][i], D.PrintInt(j)} ::
                  0 <= i < |parts| - 1 && Holds(parts[1..][i], j) && x == D.PrintInt(j))
  {
    hide Holds;
    hide D.PrintInt;
    var p := parts[1..];
    if i, j {:trigger parts[i], D.PrintInt(j)} :| 0 <= i < |parts| && Holds(parts[i], j) && x == D.PrintInt(j) {
      if i > 0 { assert Holds(p[i - 1], j) && x == D.PrintInt(j); }
    }
    if i, j {:trigger p[i], D.PrintInt(j)} :| 0 <= i < |p| && Holds(p[i], j) && x == D.PrintInt(j) {
      assert Holds(parts[i + 1], j) && x == D.PrintInt(j);
    }
    if j {:trigger D.PrintInt(j)} :| Holds(parts[0], j) && x == D.PrintInt(j) {
      assert Holds(parts[0], j) && x == D.PrintInt(j);
    }
  }

  /** SplitRanges; None is the ValueError that int() raises. */
  function Splitted(vlans: string): Option<seq<string>> {
    if vlans == "--" || vlans == " " || vlans == "1" then Some(["--"])
    else
      var parts := Split(vlans, ',');
      if |parts| > 1 then ExpandParts(parts)
      else
        var ends := Split(vlans, '-');
        if |ends| > 1 then ExpandPart(vlans) else Some([ends[0]])
  }

  method AppendNumbers(list: seq<string>, lo: int, hi: int) returns (res: seq<string>)
    ensures res == list + Numbers(lo, hi)
  {
    res := list;
    var j := lo;
    while j <= hi
      invariant lo <= j && (lo <= hi ==> j <= hi + 1) && (lo > hi ==> j == lo)
      invariant res + Numbers(j, hi) == list + Numbers(lo, hi)
    {
      res := res + [D.PrintInt(j)];
      j := j + 1;
    }
  }

  /** The numbers of all parts. */
  method ExpandEvery(parts: seq<string>) returns (res: Option<seq<string>>)
    ensures res == ExpandParts(parts)
  {
    hide PyInt;
    hide Numbers;
    hide Split;
    var vlanlist: seq<string> := [];
    assert parts[0..] == parts && forall t: seq<string> :: vlanlist + t == t;
    for i := 0 to |parts|
      invariant var rest := ExpandParts(parts[i..]);
                ExpandParts(parts) == if rest.None? then None else Some(vlanlist + rest.value)
    {
      assert parts[i..][1..] == parts[i + 1..];
      var ends := Split(parts[i], '-');
      var lo, hi := PyInt(ends[0]), PyInt(ends[|ends| - 1]);
      if lo.None? || hi.None? { return None; }
      Regroup(vlanlist, Numbers(lo.value, hi.value), ExpandParts(parts[i + 1..]));
      vlanlist := AppendNumbers(vlanlist, lo.value, hi.value);
    }
    assert parts[|parts|..] == [] && vlanlist + [] == vlanlist;
    return Some(vlanlist);
  }

  lemma Regroup<T>(a: seq<T>, b: seq<T>, rest: Option<seq<T>>)
    ensures rest.Some? ==> a + (b + rest.value) == (a + b) + rest.value
  {
  }

  method SplitRanges(vlans: string) returns (res: Option<seq<string>>)
    ensures res == Splitted(vlans)
  {
    hide PyInt;
    hide Numbers;
    hide Split;
    hide ExpandParts;
    if vlans == "--" || vlans == " " || vlans == "1" { return Some(["--"]); }
    var parts := Split(vlans, ',');
    if |parts| > 1 {
      res := ExpandEvery(parts);
      return;
    }
    var ends := Split(vlans, '-');
    if |ends| > 1 {
      var lo, hi := PyInt(ends[0]), PyInt(ends[|ends| - 1]);
      if lo.None? || hi.None? { return None; }
      var vlanlist := AppendNumbers([], lo.value, hi.value);
      assert vlanlist == Numbers(lo.value, hi.value);
      return Some(vlanlist);
    }
    return Some([ends[0]]);
  }

  // ----- the round trip -----------------------------------------------------

  function Decimals(s: seq<int>): seq<string> {
    if s == [] then [] else [D.PrintInt(s[0])] + Decimals(s[1..])
  }

  predicate NonNegative(s: seq<int>) {
    forall i :: 0 <= i < |s| ==> s[i] >= 0
  }

  lemma DigitsOnly(n: nat)
    ensures ',' !in D.Print(n) && '-' !in D.Print(n)
  {
    forall i | 0 <= i < |D.Print(n)| ensures D.Print(n)[i] != ',' && D.Print(n)[i] != '-' {
      assert D.IsDigit(D.Print(n)[i]);
    }
  }

  lemma PyIntPrint(n: nat)
    ensures PyInt(D.Print(n)) == Some(n)
  {
    var s := D.Print(n);
    assert D.IsDigit(s[0]) && D.IsDigit(s[|s| - 1]);
    assert D.SkipSpace(s) == s && StripRight(s) == s;
    D.ScanPrint(n);
  }

  lemma {:induction false} StripsRight(s: string, blank: string)
    requires D.Blank(blank) && s != "" && !IsSpace(s[|s| - 1])
    ensures StripRight(s + blank) == s
    decreases |blank|
  {
    if blank == "" {
      assert s + blank == s;
    } else {
      var n := |blank| - 1;
      assert (s + blank)[..|s| + n] == s + blank[..n];
      StripsRight(s, blank[..n]);
    }
  }

  lemma PyIntTrims(a: string, s: string, b: string)
    requires D.Blank(a) && D.Blank(b) && s != "" && !IsSpace(s[0]) && !IsSpace(s[|s| - 1])
    ensures PyInt(a + s + b) == PyInt(s)
  {
    assert a + s + b == a + (s + b) && (s + b)[0] == s[0];
    D.SkipsBlank(a, s + b);
    StripsRight(s, b);
    D.SkipsBlank("", s);
    assert "" + s == s;
    StripsRight(s, "");
    assert s + "" == s;
  }

  /** int() takes white space on both sides and one sign. */
  lemma PyIntMeans(a: string, n: nat, b: string)
    requires D.Blank(a) && D.Blank(b)
    ensures PyInt(a + D.Print(n) + b) == Some(n)
    ensures PyInt(a + (['-'] + D.Print(n)) + b) == Some(0 - n)
    ensures PyInt(a + (['+'] + D.Print(n)) + b) == Some(n)
    ensures PyInt(a) == None
  {
    var p := D.Print(n);
    assert D.IsDigit(p[0]) && D.IsDigit(p[|p| - 1]);
    PyIntTrims(a, p, b);
    PyIntPrint(n);
    PyIntTrims(a, ['-'] + p, b);
    PyIntTrims(a, ['+'] + p, b);
    SignedPrint('-', n);
    SignedPrint('+', n);
    D.SkipsBlank(a, "");
    assert a + "" == a;
  }

  lemma SignedPrint(sign: char, n: nat)
    requires sign in {'-', '+'}
    ensures PyInt([sign] + D.Print(n)) == Some(if sign == '-' then 0 - n else n)
  {
    var p := D.Print(n);
    var s := [sign] + p;
    assert D.IsDigit(p[|p| - 1]) && s[|s| - 1] == p[|p| - 1] && s[1..] == p;
    assert D.SkipSpace(s) == s && StripRight(s) == s;
    D.ScanPrint(n);
  }

  /** A text without comma and dash is taken over unread, number or not, except the two that mean none. */
  lemma PlainTextIsKept(v: string)
    requires ',' !in v && '-' !in v
    ensures Splitted(v) == Some([if v == " " || v == "1" then "--" else v])
  {
    FindIn(v, ',', "");
    FindIn(v, '-', "");
  }

  /** A range text without negative numbers expands to its numbers. */
  lemma ExpandRange(r: Range)
    requires 0 <= r.lo <= r.hi
    ensures ExpandPart(RangeText(r)) == Some(Numbers(r.lo, r.hi))
    ensures ',' !in RangeText(r)
    ensures |Split(RangeText(r), '-')| == if r.lo == r.hi then 1 else 2
    ensures r.lo == r.hi ==> Split(RangeText(r), '-')[0] == RangeText(r)
  {
    hide PyInt;
    hide D.Print;
    var a, b := D.Print(r.lo), D.Print(r.hi);
    DigitsOnly(r.lo);
    DigitsOnly(r.hi);
    PyIntPrint(r.lo);
    PyIntPrint(r.hi);
    if r.lo == r.hi {
      SplitJoin([a], '-');
      assert Join([a], '-') == a;
    } else {
      SplitJoin([a, b], '-');
      assert [a, b][1..] == [b];
      assert Join([a, b], '-') == a + ['-'] + b;
    }
  }

  lemma {:induction false} NumbersOfRun(s: seq<int>, k: nat)
    requires k <= |s| && forall i :: 0 <= i < k ==> s[i] == s[0] + i
    ensures k > 0 ==> Numbers(s[0], s[0] + k - 1) == Decimals(s[..k])
    decreases k
  {
    if k == 0 {
    } else if k == 1 {
      assert s[..1] == [s[0]] && s[..1][1..] == [];
      assert Numbers(s[0] + 1, s[0]) == [];
    } else {
      assert s[1] == s[0] + 1;
      NumbersOfRun(s[1..], k - 1);
      assert s[..k][1..] == s[1..][..k - 1];
    }
  }

  lemma {:induction false} DecimalsConcat(a: seq<int>, b: seq<int>)
    ensures Decimals(a + b) == Decimals(a) + Decimals(b)
  {
    if a == [] {
      assert a + b == b;
    } else {
      assert (a + b)[1..] == a[1..] + b;
      DecimalsConcat(a[1..], b);
    }
  }

  /** One more range in front of those that expand. */
  lemma ExpandCons(r: Range, rest: seq<Range>, tail: seq<string>)
    requires 0 <= r.lo <= r.hi && ExpandParts(RangeTexts(rest)) == Some(tail)
    requires forall t :: t in RangeTexts(rest) ==> ',' !in t
    ensures ExpandParts(RangeTexts([r] + rest)) == Some(Numbers(r.lo, r.hi) + tail)
    ensures forall t :: t in RangeTexts([r] + rest) ==> ',' !in t
  {
    hide ExpandPart;
    hide RangeText;
    hide Numbers;
    ExpandRange(r);
    assert ([r] + rest)[1..] == rest;
    var ts := RangeTexts([r] + rest);
    assert ts == [RangeText(r)] + RangeTexts(rest) && ts[1..] == RangeTexts(rest);
  }

  /** Expanding all ranges of a list gives its numbers back, duplicates included. */
  lemma {:induction false} ExpandAll(s: seq<int>)
    requires NonNegative(s)
    ensures ExpandParts(RangeTexts(Ranges(s))) == Some(Decimals(s))
    ensures forall t :: t in RangeTexts(Ranges(s)) ==> ',' !in t
    decreases |s|
  {
    hide *;
    if s != [] {
      var k := RunLength(s);
      FirstRun(s);
      ExpandAll(s[k..]);
      ExpandCons(Range(s[0], s[k - 1]), Ranges(s[k..]), Decimals(s[k..]));
      RangesStep(s, k);
      DecimalsConcat(s[..k], s[k..]);
      assert s[..k] + s[k..] == s;
    } else {
      ExpandNothing();
    }
  }

  lemma FirstRun(s: seq<int>)
    requires NonNegative(s) && s != []
    ensures var k := RunLength(s);
            && NonNegative(s[k..]) && 0 <= s[0] <= s[k - 1]
            && Numbers(s[0], s[k - 1]) == Decimals(s[..k])
  {
    hide RunLength;
    hide Numbers;
    hide Decimals;
    RunFacts(s);
    NumbersOfRun(s, RunLength(s));
  }

  lemma ExpandNothing()
    ensures ExpandParts(RangeTexts(Ranges([]))) == Some(Decimals([]))
    ensures RangeTexts(Ranges([])) == []
  {
  }

  lemma CombinedShape(s: seq<int>)
    requires NonNegative(s) && s != []
    ensures Split(Combined(s), ',') == RangeTexts(Ranges(s))
    ensures Combined(s) != "" && D.IsDigit(Combined(s)[0])
  {
    hide ExpandParts;
    ExpandAll(s);
    var ts := RangeTexts(Ranges(s));
    SplitJoin(ts, ',');
    assert D.IsDigit(D.Print(s[0])[0]);
    assert RangeText(Ranges(s)[0])[0] == D.Print(s[0])[0];
    assert Join(ts, ',')[0] == ts[0][0];
  }

  lemma PrintOne(n: nat)
    ensures D.Print(n) == "1" <==> n == 1
  {
    if D.Print(n) == "1" {
      D.ScanPrint(n);
      assert D.Scan("1", 0) == 1 by { assert "1"[1..] == ""; }
    }
  }

  lemma OneRange(s: seq<int>)
    requires s != [] && |Ranges(s)| == 1
    ensures RunLength(s) == |s| && Ranges(s) == [Range(s[0], s[|s| - 1])]
  {
    var k := RunLength(s);
    assert Ranges(s)[1..] == Ranges(s[k..]);
  }

  /** A list of one run, other than the single id 1. */
  lemma SingleRunTrip(s: seq<int>)
    requires NonNegative(s) && s != [] && s != [1] && |Ranges(s)| == 1
    ensures Combined(s) != "1"
    ensures var v := Combined(s);
            (if |Split(v, '-')| > 1 then ExpandPart(v) else Some([Split(v, '-')[0]])) == Some(Decimals(s))
  {
    hide ExpandPart;
    hide Split;
    hide D.Print;
    OneRange(s);
    RunFacts(s);
    var r := Range(s[0], s[|s| - 1]);
    ExpandRange(r);
    NumbersOfRun(s, |s|);
    assert s[..|s|] == s;
    var ts := RangeTexts(Ranges(s));
    assert Combined(s) == RangeText(r);
    if r.lo == r.hi {
      assert s == [r.lo];
      PrintOne(r.lo);
      assert Numbers(r.lo, r.hi) == [D.PrintInt(r.lo)] + Numbers(r.lo + 1, r.hi) == [D.PrintInt(r.lo)];
    } else {
      assert '-' in RangeText(r);
    }
  }

  lemma ManyRunsAreNotOne(s: seq<int>)
    requires NonNegative(s) && |Ranges(s)| > 1
    ensures Combined(s) != "1"
  {
    var ts := RangeTexts(Ranges(s));
    assert ',' in Join(ts, ',');
  }

  /** For non-negative ids, compressing and expanding gives the ascending decimals back, with
      duplicates, unless the list is empty or is the single id 1. */
  lemma RoundTrip(s: seq<int>)
    requires NonNegative(s) && s != [] && s != [1]
    ensures Splitted(Combined(s)) == Some(Decimals(s))
  {
    hide ExpandPart;
    hide RangeTexts;
    var v := Combined(s);
    CombinedShape(s);
    ExpandAll(s);
    assert |Ranges(s)| == |RangeTexts(Ranges(s))| by { TextsLength(Ranges(s)); }
    if |Ranges(s)| == 1 {
      SingleRunTrip(s);
    } else {
      ManyRunsAreNotOne(s);
    }
    hide Ranges;
    hide Join;
  }

  lemma TextsLength(rs: seq<Range>)
    ensures |RangeTexts(rs)| == |rs|
  {
  }

  lemma NegativeFails(s: seq<int>)
    requires Sorted(s) && s != [] && s[0] < 0
    ensures Splitted(Combined(s)).None?
  {
    var ts := RangeTexts(Ranges(s));
    var t := ts[0];
    assert t[0] == '-';
    var v := Combined(s);
    assert v[0] == '-' by { assert Join(ts, ',')[0] == t[0]; }
    var parts := Split(v, ',');
    FirstPart(v);
    DashFirst(parts[0]);
    DashFirst(v);
    assert v != "--" by { RangeStart(Ranges(s)[0]); assert v[1] != '-'; }
  }

  lemma RangeStart(r: Range)
    requires r.lo < 0
    ensures |RangeText(r)| >= 2 && RangeText(r)[0] == '-' && D.IsDigit(RangeText(r)[1])
  {
    assert D.IsDigit(D.Print(-r.lo)[0]);
  }

  lemma FirstPart(v: string)
    requires v != "" && v[0] == '-'
    ensures Split(v, ',')[0] != "" && Split(v, ',')[0][0] == '-'
  {
  }

  /** A part that starts with a dash makes int() fail on the empty string. */
  lemma DashFirst(p: string)
    requires p != "" && p[0] == '-'
    ensures |Split(p, '-')| > 1 && ExpandPart(p) == None
  {
    assert Find(p, '-') == 0;
    assert Split(p, '-')[0] == p[..0] == "";
    assert PyInt("") == None;
  }

  /** The exact condition of the round trip for every ascending list of integers. */
  lemma RoundTripIff(s: seq<int>)
    requires Sorted(s)
    ensures Splitted(Combined(s)) == Some(Decimals(s)) <==> NonNegative(s) && s != [] && s != [1]
  {
    hide Splitted;
    if s == [] {
      EmptyTrip();
    } else if s[0] < 0 {
      NegativeFails(s);
    } else if s == [1] {
      OneTrip();
    } else {
      RoundTrip(s);
    }
  }

  /** SplitRanges after CombineRanges, on the ids themselves: exactly for at least one id, none
      negative and not just the id 1, the result is all ids in ascending order, in decimal. */
  lemma CompressExpandIff(ids: seq<int>)
    ensures Splitted(Combined(Ascending(ids))) == Some(Decimals(Ascending(ids)))
       <==> NonNegative(ids) && ids != [] && ids != [1]
  {
    hide Splitted;
    hide Combined;
    hide Ascending;
    AscendingIsSorted(ids);
    RoundTripIff(Ascending(ids));
    SameElements(ids, Ascending(ids));
  }

  lemma SameElements(a: seq<int>, b: seq<int>)
    requires multiset(a) == multiset(b)
    ensures NonNegative(a) <==> NonNegative(b)
    ensures a == [] <==> b == []
    ensures a == [1] <==> b == [1]
  {
    assert |multiset(a)| == |multiset(b)|;
    forall i | 0 <= i < |a| ensures a[i] in b { assert a[i] in multiset(b); }
    forall i | 0 <= i < |b| ensures b[i] in a { assert b[i] in multiset(a); }
    assert a == [1] ==> |b| == 1 && b[0] in a;
    assert b == [1] ==> |a| == 1 && a[0] in b;
  }

  lemma EmptyTrip()
    ensures Splitted(Combined([])) == Some([""])
  {
    assert Split("", ',') == [""] && Split("", '-') == [""];
  }

  lemma OneTrip()
    ensures Combined([1]) == "1" && Splitted(Combined([1])) == Some(["--"]) && Decimals([1]) == ["1"]
  {
    assert [1][1..] == [];
    assert RunLength([1]) == 1;
    assert Ranges([1]) == [Range(1, 1)];
    assert D.Print(1) == "1";
    assert RangeTexts([Range(1, 1)]) == ["1"];
  }

  predicate Apart(rs: seq<Range>) {
    && (forall i :: 0 <= i < |rs| ==> rs[i].lo <= rs[i].hi)
    && (forall i :: 0 < i < |rs| ==> rs[i - 1].hi + 1 < rs[i].lo)
  }

  lemma FirstBeforeRest(first: Range, rest: seq<Range>)
    requires Apart(rest) && first.lo <= first.hi
    requires rest != [] ==> first.hi + 1 < rest[0].lo
    ensures Apart([first] + rest)
  {
  }

  lemma NothingApart()
    ensures Apart([]) && Ranges([]) == []
  {
  }

  /** For distinct ids no two neighbouring ranges could be merged. */
  lemma {:induction false} RangesAreMaximal(s: seq<int>)
    requires forall i, k :: 0 <= i < k < |s| ==> s[i] < s[k]
    ensures Apart(Ranges(s))
    ensures s != [] ==> Ranges(s) != [] && Ranges(s)[0].lo == s[0]
    decreases |s|
  {
    hide RunLength;
    hide Apart;
    if s == [] {
      NothingApart();
    } else {
      var k := RunLength(s);
      var t := s[k..];
      RunFacts(s);
      RangesAreMaximal(t);
      assert t != [] ==> t[0] == s[k] && s[k] > s[k - 1];
      FirstBeforeRest(Range(s[0], s[k - 1]), Ranges(t));
    }
  }
}
