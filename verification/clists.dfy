/** The linked-list routines among the C solutions of the code browser
    (codes.js): `ft_list_size`, `ft_list_foreach`, `ft_list_remove_if` and
    `sort_list`, each with its compact exam variant where there is one.
    A list is modelled by the data of its nodes in link order; the walking
    variable `cur` is the position of the node it designates, the length
    of the list standing for NULL. A NULL function or list argument is
    `None`; the effect of the callbacks `f` and `free_fct` is recorded as
    the sequence of data they are called with. */
module CLists {
  import opened Lists

  // ---- ft_list_size ----

  /** `ft_list_size`: one count per node walked until NULL. */
  method ListSize<T>(list: seq<T>) returns (count: int)
    ensures count == |list|
  {
    count := 0;
    var cur := 0;
    while cur < |list|
      invariant 0 <= cur <= |list| && count == cur
    {
      count := count + 1;
      cur := cur + 1;
    }
  }

  // ---- ft_list_foreach ----

  /** The non-NULL data of a list, in order. */
  function Present<T>(list: seq<Option<T>>): (r: seq<T>)
    ensures |r| <= |list|
  {
    if list == [] then []
    else if list[0].Some? then [list[0].value] + Present(list[1..])
    else Present(list[1..])
  }

  /** `ft_list_foreach`: f is applied to the data of every node, in order,
      NULL data included; nothing happens when f is NULL. */
  method ListForeach<T>(list: seq<Option<T>>, fGiven: bool) returns (calls: seq<Option<T>>)
    ensures fGiven ==> calls == list
    ensures !fGiven ==> calls == []
  {
    calls := [];
    if !fGiven {
      return;
    }
    var cur := 0;
    while cur < |list|
      invariant 0 <= cur <= |list| && calls == list[..cur]
    {
      calls := calls + [list[cur]];
      cur := cur + 1;
    }
  }

  /** The exam variant of `ft_list_foreach` skips the nodes whose data is
      NULL (and does not test f). */
  method ListForeachExam<T>(list: seq<Option<T>>) returns (calls: seq<T>)
    ensures calls == Present(list)
  {
    calls := [];
    var cur := 0;
    while cur < |list|
      invariant 0 <= cur <= |list| && calls + Present(list[cur..]) == Present(list)
    {
      assert list[cur..][1..] == list[cur + 1..];
      if list[cur].Some? {
        calls := calls + [list[cur].value];
      }
      cur := cur + 1;
    }
  }

  /** On a list without NULL data the exam variant calls f on the data of
      every node, like the complete version. */
  lemma {:induction false} PresentAll<T>(list: seq<Option<T>>)
    requires forall i :: 0 <= i < |list| ==> list[i].Some?
    ensures |Present(list)| == |list|
    ensures forall i :: 0 <= i < |list| ==> Present(list)[i] == list[i].value
  {
    if list != [] {
      PresentAll(list[1..]);
    }
  }

  // ---- ft_list_remove_if ----

  /** The nodes of list that ft_list_remove_if keeps (keep) or unlinks
      (!keep), in order: it unlinks those whose data compares equal to
      data_ref. */
  function Select<T>(list: seq<T>, cmp: (T, T) -> int, dataRef: T, keep: bool): seq<T> {
    if list == [] then []
    else (if (cmp(list[0], dataRef) != 0) == keep then [list[0]] else []) + Select(list[1..], cmp, dataRef, keep)
  }

  /** The nodes that stay linked. */
  function Kept<T>(list: seq<T>, cmp: (T, T) -> int, dataRef: T): seq<T> {
    Select(list, cmp, dataRef, true)
  }

  /** The nodes that are unlinked and freed. */
  function Removed<T>(list: seq<T>, cmp: (T, T) -> int, dataRef: T): seq<T> {
    Select(list, cmp, dataRef, false)
  }

  /** Exactly the nodes of the list on the chosen side are selected. */
  lemma {:induction false} SelectMembers<T>(list: seq<T>, cmp: (T, T) -> int, dataRef: T, keep: bool)
    ensures forall x :: x in Select(list, cmp, dataRef, keep) <==> x in list && (cmp(x, dataRef) != 0) == keep
  {
    if list != [] {
      SelectMembers(list[1..], cmp, dataRef, keep);
      assert list == [list[0]] + list[1..];
    }
  }

  lemma {:induction false} SelectAppend<T>(a: seq<T>, b: seq<T>, cmp: (T, T) -> int, dataRef: T, keep: bool)
    ensures Select(a + b, cmp, dataRef, keep) == Select(a, cmp, dataRef, keep) + Select(b, cmp, dataRef, keep)
  {
    if a == [] {
      assert a + b == b;
    } else {
      SelectAppend(a[1..], b, cmp, dataRef, keep);
      TailAppend(a, b);
      AppendAssoc(if (cmp(a[0], dataRef) != 0) == keep then [a[0]] else [],
                  Select(a[1..], cmp, dataRef, keep), Select(b, cmp, dataRef, keep));
    }
  }

  /** `remove_head_matches`: the leading matching nodes are unlinked and
      their data freed; the new head, if any, does not match. */
  method RemoveHeadMatches<T>(list: seq<T>, dataRef: T, cmp: (T, T) -> int)
    returns (rest: seq<T>, freed: seq<T>)
    ensures freed + rest == list
    ensures forall i :: 0 <= i < |freed| ==> cmp(freed[i], dataRef) == 0
    ensures rest == [] || cmp(rest[0], dataRef) != 0
  {
    rest := list;
    freed := [];
    while rest != [] && cmp(rest[0], dataRef) == 0
      invariant freed + rest == list
      invariant forall i :: 0 <= i < |freed| ==> cmp(freed[i], dataRef) == 0
    {
      assert freed + [rest[0]] + rest[1..] == list;
      freed := freed + [rest[0]];
      rest := rest[1..];
    }
  }

  /** A run of matching nodes is all removed. */
  lemma {:induction false} AllMatching<T>(s: seq<T>, cmp: (T, T) -> int, dataRef: T)
    requires forall i :: 0 <= i < |s| ==> cmp(s[i], dataRef) == 0
    ensures Kept(s, cmp, dataRef) == [] && Removed(s, cmp, dataRef) == s
  {
    if s != [] {
      AllMatching(s[1..], cmp, dataRef);
      assert s == [s[0]] + s[1..];
    }
  }

  /** The scan of ft_list_remove_if has looked at the first p nodes after
      the head: the linked list holds the kept ones among them up to and
      including cur, then the unvisited nodes; freed holds the head's
      matches and the removed ones among them. */
  ghost predicate RemoveReaches<T>(rest: seq<T>, cmp: (T, T) -> int, dataRef: T, head: seq<T>,
                                   linked: seq<T>, freed: seq<T>, cur: nat, p: nat)
  {
    && 1 <= p <= |rest| && cur < |linked|
    && linked[..cur + 1] == Kept(rest[..p], cmp, dataRef)
    && linked[cur + 1..] == rest[p..]
    && freed == head + Removed(rest[..p], cmp, dataRef)
  }

  lemma PrefixSnoc<T>(s: seq<T>, p: nat)
    requires p < |s|
    ensures s[..p + 1] == s[..p] + [s[p]]
  {
  }

  /** Selecting from one more node: the selection of the prefix, then
      that node if it is on the chosen side. */
  lemma SelectSnoc<T>(s: seq<T>, p: nat, cmp: (T, T) -> int, dataRef: T, keep: bool)
    requires p < |s|
    ensures Select(s[..p + 1], cmp, dataRef, keep)
         == Select(s[..p], cmp, dataRef, keep) + (if (cmp(s[p], dataRef) != 0) == keep then [s[p]] else [])
  {
    PrefixSnoc(s, p);
    SelectAppend(s[..p], [s[p]], cmp, dataRef, keep);
    assert [s[p]][1..] == [];
  }

  /** The first node after the head removal is kept. */
  lemma RemoveStart<T>(rest: seq<T>, cmp: (T, T) -> int, dataRef: T, head: seq<T>)
    requires rest != [] && cmp(rest[0], dataRef) != 0
    ensures RemoveReaches(rest, cmp, dataRef, head, rest, head, 0, 1)
  {
    SelectSnoc(rest, 0, cmp, dataRef, true);
    SelectSnoc(rest, 0, cmp, dataRef, false);
    assert rest[..0] == [];
  }

  /** `cur->next` matches: it is unlinked and its data freed. */
  lemma RemoveUnlink<T>(rest: seq<T>, cmp: (T, T) -> int, dataRef: T, head: seq<T>,
                        linked: seq<T>, freed: seq<T>, cur: nat, p: nat)
    requires RemoveReaches(rest, cmp, dataRef, head, linked, freed, cur, p)
    requires cur + 1 < |linked| && cmp(linked[cur + 1], dataRef) == 0
    ensures RemoveReaches(rest, cmp, dataRef, head, linked[..cur + 1] + linked[cur + 2..],
                          freed + [linked[cur + 1]], cur, p + 1)
  {
    assert linked[cur + 1..][0] == rest[p..][0];
    SelectSnoc(rest, p, cmp, dataRef, true);
    SelectSnoc(rest, p, cmp, dataRef, false);
    var linked' := linked[..cur + 1] + linked[cur + 2..];
    assert linked'[..cur + 1] == linked[..cur + 1];
    assert linked'[cur + 1..] == linked[cur + 2..] == rest[p + 1..];
  }

  /** `cur->next` does not match: the walk moves on to it. */
  lemma RemoveAdvance<T>(rest: seq<T>, cmp: (T, T) -> int, dataRef: T, head: seq<T>,
                         linked: seq<T>, freed: seq<T>, cur: nat, p: nat)
    requires RemoveReaches(rest, cmp, dataRef, head, linked, freed, cur, p)
    requires cur + 1 < |linked| && cmp(linked[cur + 1], dataRef) != 0
    ensures RemoveReaches(rest, cmp, dataRef, head, linked, freed, cur + 1, p + 1)
  {
    assert linked[cur + 1..][0] == rest[p..][0];
    SelectSnoc(rest, p, cmp, dataRef, true);
    SelectSnoc(rest, p, cmp, dataRef, false);
    PrefixSnoc(linked, cur + 1);
    assert linked[cur + 2..] == linked[cur + 1..][1..];
  }

  /** `cur->next` is NULL: every node has been looked at. */
  lemma RemoveDone<T>(rest: seq<T>, cmp: (T, T) -> int, dataRef: T, head: seq<T>,
                      linked: seq<T>, freed: seq<T>, cur: nat, p: nat)
    requires RemoveReaches(rest, cmp, dataRef, head, linked, freed, cur, p)
    requires cur + 1 >= |linked|
    ensures linked == Kept(rest, cmp, dataRef)
    ensures freed == head + Removed(rest, cmp, dataRef)
  {
    assert rest[..p] == rest;
    assert linked[..cur + 1] == linked;
  }

  /** Removal after the head's matches: the kept and removed nodes of the
      whole list. */
  lemma RemoveSplit<T>(head: seq<T>, rest: seq<T>, cmp: (T, T) -> int, dataRef: T)
    requires forall i :: 0 <= i < |head| ==> cmp(head[i], dataRef) == 0
    ensures Kept(head + rest, cmp, dataRef) == Kept(rest, cmp, dataRef)
    ensures Removed(head + rest, cmp, dataRef) == head + Removed(rest, cmp, dataRef)
  {
    AllMatching(head, cmp, dataRef);
    SelectAppend(head, rest, cmp, dataRef, true);
    SelectAppend(head, rest, cmp, dataRef, false);
  }

  /** `ft_list_remove_if`: nothing happens when begin_list, cmp or free_fct
      is NULL; otherwise the matching nodes are unlinked, the others keep
      their order, and free_fct is called on the removed data in list
      order. */
  method ListRemoveIf<T>(beginList: Option<seq<T>>, dataRef: T, cmp: Option<(T, T) -> int>, freeGiven: bool)
    returns (after: Option<seq<T>>, freed: seq<T>)
    ensures beginList.None? || cmp.None? || !freeGiven ==> after == beginList && freed == []
    ensures beginList.Some? && cmp.Some? && freeGiven ==>
      && after == Some(Kept(beginList.value, cmp.value, dataRef))
      && freed == Removed(beginList.value, cmp.value, dataRef)
  {
    if beginList.None? || cmp.None? || !freeGiven {
      return beginList, [];
    }
    var compare := cmp.value;
    var rest, head := RemoveHeadMatches(beginList.value, dataRef, compare);
    RemoveSplit(head, rest, compare, dataRef);
    if rest == [] {
      AllMatching(head, compare, dataRef);
      assert head == beginList.value;
      return Some([]), head;
    }
    var linked := rest;
    freed := head;
    var cur := 0;
    ghost var p := 1;
    RemoveStart(rest, compare, dataRef, head);
    while cur + 1 < |linked|
      invariant RemoveReaches(rest, compare, dataRef, head, linked, freed, cur, p)
      decreases |linked| - cur
    {
      if compare(linked[cur + 1], dataRef) == 0 {
        RemoveUnlink(rest, compare, dataRef, head, linked, freed, cur, p);
        freed := freed + [linked[cur + 1]];
        linked := linked[..cur + 1] + linked[cur + 2..];
      } else {
        RemoveAdvance(rest, compare, dataRef, head, linked, freed, cur, p);
        cur := cur + 1;
      }
      p := p + 1;
    }
    RemoveDone(rest, compare, dataRef, head, linked, freed, cur, p);
    after := Some(linked);
  }

  /** Every node is either kept or freed: nothing is lost or duplicated. */
  lemma {:induction false} KeptRemovedPartition<T>(list: seq<T>, cmp: (T, T) -> int, dataRef: T)
    ensures multiset(Kept(list, cmp, dataRef)) + multiset(Removed(list, cmp, dataRef)) == multiset(list)
  {
    if list != [] {
      var x, tail := list[0], list[1..];
      KeptRemovedPartition(tail, cmp, dataRef);
      assert list == [x] + tail;
      assert multiset(list) == multiset{x} + multiset(tail);
      if cmp(x, dataRef) == 0 {
        assert Removed(list, cmp, dataRef) == [x] + Removed(tail, cmp, dataRef);
        assert Kept(list, cmp, dataRef) == Kept(tail, cmp, dataRef);
      } else {
        assert Kept(list, cmp, dataRef) == [x] + Kept(tail, cmp, dataRef);
        assert Removed(list, cmp, dataRef) == Removed(tail, cmp, dataRef);
      }
    }
  }

  /** The exam variant of `ft_list_remove_if`, recursive: a matching head
      is unlinked and the call repeats on the new head, otherwise it
      continues on the next link. It frees the nodes but not their
      data, and does not take free_fct. */
  function ListRemoveIfExam<T>(beginList: Option<seq<T>>, dataRef: T, cmp: Option<(T, T) -> int>): (r: Option<seq<T>>)
    ensures beginList.None? || cmp.None? ==> r == beginList
    ensures r.Some? <==> beginList.Some?
    ensures r.Some? ==> |r.value| <= |beginList.value|
  {
    if beginList.None? || cmp.None? then beginList
    else Some(RemoveFrom(beginList.value, dataRef, cmp.value))
  }

  function RemoveFrom<T>(list: seq<T>, dataRef: T, cmp: (T, T) -> int): (r: seq<T>)
    ensures |r| <= |list|
  {
    if list == [] then []
    else if cmp(list[0], dataRef) == 0 then RemoveFrom(list[1..], dataRef, cmp)
    else [list[0]] + RemoveFrom(list[1..], dataRef, cmp)
  }

  /** Both versions leave the same nodes linked. */
  lemma {:induction false} ExamRemoveAgrees<T>(list: seq<T>, dataRef: T, cmp: (T, T) -> int)
    ensures ListRemoveIfExam(Some(list), dataRef, Some(cmp)) == Some(Kept(list, cmp, dataRef))
    ensures RemoveFrom(list, dataRef, cmp) == Kept(list, cmp, dataRef)
  {
    if list != [] {
      ExamRemoveAgrees(list[1..], dataRef, cmp);
      assert Kept(list, cmp, dataRef)
          == (if cmp(list[0], dataRef) != 0 then [list[0]] else []) + Kept(list[1..], cmp, dataRef);
      assert RemoveFrom(list, dataRef, cmp)
          == (if cmp(list[0], dataRef) != 0 then [list[0]] else []) + RemoveFrom(list[1..], dataRef, cmp);
    }
  }

  // ---- sort_list ----

  /** The number of elements of t that x is out of order with. */
  function Above(x: int, t: seq<int>, bad: (int, int) -> bool): nat {
    if t == [] then 0
    else (if bad(x, t[0]) then 1 else 0) + Above(x, t[1..], bad)
  }

  /** The number of pairs i < j whose data are out of order: what each
      exchange of sort_list lowers. */
  function Inversions(s: seq<int>, bad: (int, int) -> bool): nat {
    if s == [] then 0
    else Above(s[0], s[1..], bad) + Inversions(s[1..], bad)
  }

  lemma SwapFront(t: seq<int>)
    requires 2 <= |t|
    ensures Swap(t, 0, 1)[0] == t[1] && Swap(t, 0, 1)[1..][0] == t[0]
    ensures Swap(t, 0, 1)[1..][1..] == t[2..] && t[1..][1..] == t[2..]
  {
  }

  lemma SwapTail(t: seq<int>, k: nat)
    requires 0 < k && k + 1 < |t|
    ensures Swap(t, k, k + 1)[0] == t[0]
    ensures Swap(t, k, k + 1)[1..] == Swap(t[1..], k - 1, k)
  {
  }

  /** Exchanging two neighbours of t does not change how many elements of
      t x is out of order with. */
  lemma {:induction false} AboveSwap(x: int, t: seq<int>, k: nat, bad: (int, int) -> bool)
    requires k + 1 < |t|
    ensures Above(x, Swap(t, k, k + 1), bad) == Above(x, t, bad)
  {
    if k == 0 {
      SwapFront(t);
    } else {
      SwapTail(t, k);
      AboveSwap(x, t[1..], k - 1, bad);
    }
  }

  /** Exchanging a pair that is out of order (and not the other way round
      too) removes exactly one inversion. */
  lemma {:induction false} InversionsSwap(s: seq<int>, k: nat, bad: (int, int) -> bool)
    requires k + 1 < |s| && bad(s[k], s[k + 1]) && !bad(s[k + 1], s[k])
    ensures Inversions(Swap(s, k, k + 1), bad) + 1 == Inversions(s, bad)
  {
    if k == 0 {
      SwapFront(s);
    } else {
      SwapTail(s, k);
      AboveSwap(s[0], s[1..], k - 1, bad);
      InversionsSwap(s[1..], k - 1, bad);
    }
  }

  /** What `sort_list` exchanges on: cmp(a, b) > 0. */
  function Greater(cmp: (int, int) -> int): (int, int) -> bool {
    (a, b) => cmp(a, b) > 0
  }

  /** A comparator that never reports both a > b and b > a, which is what
      the bubble sort needs to stop. */
  ghost predicate Consistent(cmp: (int, int) -> int) {
    forall a, b :: cmp(a, b) > 0 ==> cmp(b, a) <= 0
  }

  lemma ConsistentAt(cmp: (int, int) -> int, a: int, b: int)
    requires Consistent(cmp) && cmp(a, b) > 0
    ensures Greater(cmp)(a, b) && !Greater(cmp)(b, a)
  {
  }

  /** Every neighbour pair is in order for cmp. */
  predicate SortedBy(s: seq<int>, cmp: (int, int) -> int) {
    forall i :: 0 <= i < |s| - 1 ==> cmp(s[i], s[i + 1]) <= 0
  }

  /** The pass of `sort_list` has compared the pairs before cur: the data
      are a permutation of those at the start of the pass, with one
      inversion fewer per swap, and if nothing was swapped they are those
      of the start and in order up to cur. */
  ghost predicate PassReaches(start: seq<int>, now: seq<int>, cmp: (int, int) -> int, swapped: int, cur: nat) {
    && |now| == |start| && (swapped == 0 || swapped == 1)
    && multiset(now) == multiset(start)
    && Inversions(now, Greater(cmp)) + swapped <= Inversions(start, Greater(cmp))
    && (swapped == 0 ==> now == start)
    && (swapped == 0 ==> forall i :: 0 <= i < cur && i + 1 < |now| ==> cmp(now[i], now[i + 1]) <= 0)
  }

  /** An out-of-order pair is exchanged. */
  lemma PassSwap(start: seq<int>, now: seq<int>, cmp: (int, int) -> int, swapped: int, cur: nat)
    requires Consistent(cmp) && PassReaches(start, now, cmp, swapped, cur)
    requires cur + 1 < |now| && cmp(now[cur], now[cur + 1]) > 0
    ensures PassReaches(start, Swap(now, cur, cur + 1), cmp, 1, cur + 1)
  {
    ConsistentAt(cmp, now[cur], now[cur + 1]);
    InversionsSwap(now, cur, Greater(cmp));
    SwapPermutes(now, cur, cur + 1);
  }

  /** A pair in order is left alone. */
  lemma PassKeep(start: seq<int>, now: seq<int>, cmp: (int, int) -> int, swapped: int, cur: nat)
    requires PassReaches(start, now, cmp, swapped, cur)
    requires cur + 1 < |now| && cmp(now[cur], now[cur + 1]) <= 0
    ensures PassReaches(start, now, cmp, swapped, cur + 1)
  {
  }

  /** At the last node every pair has been compared. */
  lemma PassDone(start: seq<int>, now: seq<int>, cmp: (int, int) -> int, swapped: int, cur: nat)
    requires PassReaches(start, now, cmp, swapped, cur) && cur + 1 >= |now|
    ensures swapped == 0 ==> SortedBy(now, cmp)
  {
  }

  /** One pass of the outer loop of `sort_list`: walks the list once and
      exchanges every neighbour pair found out of order. It reports a swap
      unless the list was already sorted, in which case nothing changed;
      each swap removes an inversion. */
  method BubblePass(lst: array<int>, cmp: (int, int) -> int) returns (swapped: int)
    requires Consistent(cmp)
    modifies lst
    ensures PassReaches(old(lst[..]), lst[..], cmp, swapped, lst.Length)
    ensures multiset(lst[..]) == multiset(old(lst[..]))
    ensures swapped == 0 ==> lst[..] == old(lst[..]) && SortedBy(lst[..], cmp)
  {
    swapped := 0;
    var cur := 0;
    while cur + 1 < lst.Length
      invariant 0 <= cur && (cur < lst.Length || cur == 0)
      invariant PassReaches(old(lst[..]), lst[..], cmp, swapped, cur)
    {
      ghost var before := lst[..];
      if cmp(lst[cur], lst[cur + 1]) > 0 {
        PassSwap(old(lst[..]), before, cmp, swapped, cur);
        lst[cur], lst[cur + 1] := lst[cur + 1], lst[cur];
        assert lst[..] == Swap(before, cur, cur + 1);
        swapped := 1;
      } else {
        PassKeep(old(lst[..]), before, cmp, swapped, cur);
      }
      cur := cur + 1;
    }
    PassDone(old(lst[..]), lst[..], cmp, swapped, cur);
  }

  /** `sort_list`: the data are bubble-sorted in place, the links are left
      alone. A NULL list, a NULL cmp or a single node is returned as it
      is. The data of the nodes are the elements of lst, in link order. */
  method SortList(lst: array<int>, cmp: Option<(int, int) -> int>)
    requires cmp.Some? ==> Consistent(cmp.value)
    modifies lst
    ensures multiset(lst[..]) == multiset(old(lst[..]))
    ensures cmp.Some? ==> SortedBy(lst[..], cmp.value)
    ensures cmp.None? || lst.Length <= 1 ==> lst[..] == old(lst[..])
  {
    if cmp.None? || lst.Length <= 1 {
      return;
    }
    var compare := cmp.value;
    var swapped := 1;
    while swapped == 1
      invariant swapped == 0 || swapped == 1
      invariant multiset(lst[..]) == multiset(old(lst[..]))
      invariant swapped == 0 ==> SortedBy(lst[..], compare)
      decreases Inversions(lst[..], Greater(compare)) + swapped
    {
      swapped := BubblePass(lst, compare);
    }
  }

  /** What the exam variant exchanges on: cmp(a, b) == 0, the comparator
      answering "in order" with a non-zero value. */
  function Unordered(cmp: (int, int) -> int): (int, int) -> bool {
    (a, b) => cmp(a, b) == 0
  }

  /** The exam variant needs a comparator that never answers 0 both ways. */
  ghost predicate ConsistentExam(cmp: (int, int) -> int) {
    forall a, b :: cmp(a, b) == 0 ==> cmp(b, a) != 0
  }

  lemma ConsistentExamAt(cmp: (int, int) -> int, a: int, b: int)
    requires ConsistentExam(cmp) && cmp(a, b) == 0
    ensures Unordered(cmp)(a, b) && !Unordered(cmp)(b, a)
  {
  }

  /** The exam variant of `sort_list`: one walk that exchanges the first
      pair found with cmp == 0 and starts again from the head, until it
      reaches the last node. */
  method SortListExam(lst: array<int>, cmp: Option<(int, int) -> int>)
    requires cmp.Some? ==> ConsistentExam(cmp.value)
    modifies lst
    ensures multiset(lst[..]) == multiset(old(lst[..]))
    ensures cmp.Some? ==> forall i :: 0 <= i < lst.Length - 1 ==> cmp.value(lst[i], lst[i + 1]) != 0
    ensures cmp.None? ==> lst[..] == old(lst[..])
  {
    if cmp.None? {
      return;
    }
    var compare := cmp.value;
    var cur := 0;
    while cur + 1 < lst.Length
      invariant 0 <= cur && (cur < lst.Length || cur == 0)
      invariant multiset(lst[..]) == multiset(old(lst[..]))
      invariant forall i :: 0 <= i < cur ==> compare(lst[i], lst[i + 1]) != 0
      decreases Inversions(lst[..], Unordered(compare)), lst.Length - cur
    {
      if compare(lst[cur], lst[cur + 1]) == 0 {
        ghost var before := lst[..];
        ConsistentExamAt(compare, before[cur], before[cur + 1]);
        InversionsSwap(before, cur, Unordered(compare));
        SwapPermutes(before, cur, cur + 1);
        lst[cur], lst[cur + 1] := lst[cur + 1], lst[cur];
        assert lst[..] == Swap(before, cur, cur + 1);
        cur := 0;
      } else {
        cur := cur + 1;
      }
    }
  }
}
