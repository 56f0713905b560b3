/** The intrusive circular doubly linked list (service/inc/agm_list.h), on the heap. */
module AgmList {
  import opened Common

  /** A list node; item is the structure it is embedded in, and a list head has none. */
  class ListNode<T(!new)> {
    const item: Option<T>
    var next: ListNode?<T>
    var prev: ListNode?<T>

    constructor (item: Option<T>)
      ensures this.item == item
    {
      this.item := item;
      next, prev := null, null;
    }
  }

  function Succ(n: nat, i: nat): nat
    requires i < n
  {
    if i + 1 == n then 0 else i + 1
  }

  function Pred(n: nat, i: nat): nat
    requires i < n
  {
    if i == 0 then n - 1 else i - 1
  }

  ghost predicate Distinct<T>(c: seq<T>) {
    forall i, j :: 0 <= i < j < |c| ==> c[i] != c[j]
  }

  lemma DistinctTail<T>(head: T, s: seq<T>, x: T)
    requires Distinct([head] + s) && x != head && x !in s
    ensures Distinct([head] + (s + [x]))
  {
    var c := [head] + s;
    var d := [head] + (s + [x]);
    assert d == c + [x];
    forall i, j | 0 <= i < j < |d| ensures d[i] != d[j] {
      assert d[i] == c[i];
      assert c[i] == if i == 0 then head else s[i - 1];
    }
  }

  lemma DistinctHead<T>(head: T, s: seq<T>, x: T)
    requires Distinct([head] + s) && x != head && x !in s
    ensures Distinct([head] + ([x] + s))
  {
    var c := [head] + s;
    var d := [head] + ([x] + s);
    forall i, j | 0 <= i < j < |d| ensures d[i] != d[j] {
      assert j > 1 ==> d[j] == c[j - 1] == s[j - 2];
      assert i > 1 ==> d[i] == c[i - 1];
      assert d[0] == c[0] && d[1] == x;
    }
    assert Distinct(d);
  }

  lemma DistinctRemove<T>(head: T, s: seq<T>, k: nat)
    requires Distinct([head] + s) && k < |s|
    ensures Distinct([head] + (s[..k] + s[k + 1..]))
  {
    var c := [head] + s;
    var d := [head] + (s[..k] + s[k + 1..]);
    forall i, j | 0 <= i < j < |d| ensures d[i] != d[j] {
      assert d[i] == if i <= k then c[i] else c[i + 1];
      assert d[j] == if j <= k then c[j] else c[j + 1];
    }
  }

  // The nodes of c, in this order, link round to the first.
  ghost predicate Cycle<T(!new)>(c: seq<ListNode<T>>)
    reads c
  {
    && Distinct(c)
    && (forall i {:trigger c[i].next} :: 0 <= i < |c| ==> c[i].next == c[Succ(|c|, i)])
    && (forall i {:trigger c[i].prev} :: 0 <= i < |c| ==> c[i].prev == c[Pred(|c|, i)])
  }

  /** head is a list whose elements are s. */
  ghost predicate Ring<T(!new)>(head: ListNode<T>, s: seq<ListNode<T>>)
    reads head, s
  {
    Cycle([head] + s)
  }

  method ListInit<T(!new)>(node: ListNode<T>)
    modifies node
    ensures Ring(node, [])
  {
    node.next := node;
    node.prev := node;
  }

  method ListAddTail<T(!new)>(head: ListNode<T>, item: ListNode<T>, ghost s: seq<ListNode<T>>)
    requires Ring(head, s) && item != head && item !in s
    modifies head, head.prev, item
    ensures Ring(head, s + [item])
  {
    ghost var c := [head] + s;
    ghost var d := [head] + (s + [item]);
    DistinctTail(head, s, item);
    CycleAt(c, 0);
    item.next := head;
    item.prev := head.prev;
    head.prev.next := item;
    head.prev := item;
    assert d == c + [item];
    forall i {:trigger d[i].next} | 0 <= i < |d| ensures d[i].next == d[Succ(|d|, i)] {
      assert i < |s| ==> c[i] != c[|s|] && old(c[i].next) == c[i + 1];
    }
    forall i {:trigger d[i].prev} | 0 <= i < |d| ensures d[i].prev == d[Pred(|d|, i)] {
      assert 0 < i <= |s| ==> c[0] != c[i] && old(c[i].prev) == c[i - 1];
    }
  }

  method ListAddHead<T(!new)>(head: ListNode<T>, item: ListNode<T>, ghost s: seq<ListNode<T>>)
    requires Ring(head, s) && item != head && item !in s
    modifies head, head.next, item
    ensures Ring(head, [item] + s)
  {
    ghost var c := [head] + s;
    ghost var d := [head] + ([item] + s);
    DistinctHead(head, s, item);
    CycleAt(c, 0);
    item.next := head.next;
    item.prev := head;
    head.next.prev := item;
    head.next := item;
    assert forall i :: 2 <= i < |d| ==> d[i] == c[i - 1];
    forall i {:trigger d[i].next} | 0 <= i < |d| ensures d[i].next == d[Succ(|d|, i)] {
      assert i > 1 ==> c[0] != c[i - 1] && old(c[i - 1].next) == c[Succ(|c|, i - 1)];
    }
    forall i {:trigger d[i].prev} | 0 <= i < |d| ensures d[i].prev == d[Pred(|d|, i)] {
      assert i > 2 ==> c[1] != c[i - 1] && old(c[i - 1].prev) == c[i - 2];
      assert i == 0 && |c| > 1 ==> old(c[0].prev) == c[|c| - 1];
    }
  }

  // Place i of d is place j of c, and its neighbours in d are those of c but for element k + 1, which is skipped.
  lemma RemovedAt<T>(c: seq<T>, d: seq<T>, k: nat, i: nat) returns (j: nat)
    requires k + 1 < |c| && d == c[..k + 1] + c[k + 2..] && i < |d|
    ensures j < |c| && j != k + 1 && d[i] == c[j]
    ensures d[Succ(|d|, i)] == c[if j == k then Succ(|c|, k + 1) else Succ(|c|, j)]
    ensures d[Pred(|d|, i)] == c[if j == Succ(|c|, k + 1) then k else Pred(|c|, j)]
  {
    j := if i <= k then i else i + 1;
    assert forall l :: 0 <= l < |d| ==> d[l] == c[if l <= k then l else l + 1];
  }

  // Only one link of either neighbour changes; the removed node keeps its own.
  method ListRemove<T(!new)>(item: ListNode<T>, ghost head: ListNode<T>, ghost s: seq<ListNode<T>>, ghost k: nat)
    requires Ring(head, s) && k < |s| && s[k] == item
    modifies item.next, item.prev
    ensures Ring(head, s[..k] + s[k + 1..])
    ensures item.next == old(item.next) && item.prev == old(item.prev)
  {
    ghost var c := [head] + s;
    ghost var d := [head] + (s[..k] + s[k + 1..]);
    ghost var after := Succ(|c|, k + 1);
    DistinctRemove(head, s, k);
    assert d == c[..k + 1] + c[k + 2..];
    CycleAt(c, k + 1);
    item.next.prev := item.prev;
    item.prev.next := item.next;
    forall i {:trigger d[i].next} | 0 <= i < |d| ensures d[i].next == d[Succ(|d|, i)] {
      var j := RemovedAt(c, d, k, i);
      assert j != k ==> c[j] != c[k] && old(c[j].next) == c[Succ(|c|, j)];
    }
    forall i {:trigger d[i].prev} | 0 <= i < |d| ensures d[i].prev == d[Pred(|d|, i)] {
      var j := RemovedAt(c, d, k, i);
      assert j != after ==> c[j] != c[after] && old(c[j].prev) == c[Pred(|c|, j)];
    }
  }

  lemma RingLinks<T(!new)>(head: ListNode<T>, s: seq<ListNode<T>>)
    requires Ring(head, s)
    ensures head !in s && head.next == if s == [] then head else s[0]
    ensures head.prev == if s == [] then head else s[|s| - 1]
    ensures forall k {:trigger s[k].next} :: 0 <= k < |s| ==> s[k].next == if k + 1 == |s| then head else s[k + 1]
    ensures forall k {:trigger s[k].prev} :: 0 <= k < |s| ==> s[k].prev == if k == 0 then head else s[k - 1]
  {
    var c := [head] + s;
    CycleAt(c, 0);
    forall k {:trigger s[k].next} | 0 <= k < |s| ensures s[k].next == if k + 1 == |s| then head else s[k + 1] {
      CycleAt(c, k + 1);
    }
    forall k {:trigger s[k].prev} | 0 <= k < |s| ensures s[k].prev == if k == 0 then head else s[k - 1] {
      CycleAt(c, k + 1);
    }
    forall k | 0 <= k < |s| ensures s[k] != head {
      assert c[k + 1] != c[0];
    }
  }

  lemma CycleAt<T(!new)>(c: seq<ListNode<T>>, i: nat)
    requires Cycle(c) && i < |c|
    ensures c[i].next == if i + 1 == |c| then c[0] else c[i + 1]
    ensures c[i].prev == if i == 0 then c[|c| - 1] else c[i - 1]
  {
    assert c[i].next == c[Succ(|c|, i)] && c[i].prev == c[Pred(|c|, i)];
  }

  /** list_for_each: every element is visited once, in order, and the loop ends. */
  method ForEach<T(!new)>(head: ListNode<T>, ghost s: seq<ListNode<T>>) returns (visited: seq<ListNode<T>>)
    requires Ring(head, s)
    ensures visited == s
  {
    RingLinks(head, s);
    visited := [];
    var node := head.next;
    while node != head
      invariant |visited| <= |s| && visited == s[..|visited|]
      invariant node == if |visited| < |s| then s[|visited|] else head
      decreases |s| - |visited|
    {
      visited := visited + [node];
      node := node.next;
    }
  }

  predicate Chosen<T(!new)>(node: ListNode<T>, drop: T -> bool) {
    node.item.Some? && drop(node.item.value)
  }

  ghost function Kept<T(!new)>(s: seq<ListNode<T>>, drop: T -> bool): seq<ListNode<T>> {
    if s == [] then []
    else (if Chosen(s[0], drop) then [] else [s[0]]) + Kept(s[1..], drop)
  }

  // How many of the first n elements are not dropped.
  ghost function Staying<T(!new)>(s: seq<ListNode<T>>, drop: T -> bool, n: nat): nat
    requires n <= |s|
  {
    if n == 0 then 0
    else Staying(s, drop, n - 1) + if s[n - 1].item.Some? && drop(s[n - 1].item.value) then 0 else 1
  }

  lemma {:induction false} KeptSnoc<T(!new)>(s: seq<ListNode<T>>, x: ListNode<T>, drop: T -> bool)
    ensures Kept(s + [x], drop) == Kept(s, drop) + if x.item.Some? && drop(x.item.value) then [] else [x]
  {
    if s == [] {
      assert [x][1..] == [];
    } else {
      assert (s + [x])[0] == s[0] && (s + [x])[1..] == s[1..] + [x];
      KeptSnoc(s[1..], x, drop);
    }
  }

  /** What is kept are the elements that are not dropped, each in its place among them. */
  lemma {:induction false} KeptOrder<T(!new)>(s: seq<ListNode<T>>, drop: T -> bool, n: nat)
    requires n <= |s|
    ensures |Kept(s[..n], drop)| == Staying(s, drop, n)
    ensures forall i :: 0 <= i < n && !(s[i].item.Some? && drop(s[i].item.value)) ==>
              Staying(s, drop, i) < Staying(s, drop, n) && Kept(s[..n], drop)[Staying(s, drop, i)] == s[i]
  {
    if n > 0 {
      KeptOrder(s, drop, n - 1);
      assert s[..n] == s[..n - 1] + [s[n - 1]];
      KeptSnoc(s[..n - 1], s[n - 1], drop);
    }
  }

  method RemoveIfChosen<T(!new)>(node: ListNode<T>, head: ListNode<T>, drop: T -> bool,
                                 ghost done: seq<ListNode<T>>, ghost rest: seq<ListNode<T>>)
      returns (ghost done': seq<ListNode<T>>)
    requires rest != [] && rest[0] == node && Ring(head, done + rest)
    modifies node.next, node.prev
    ensures done' == done + if Chosen(node, drop) then [] else [node]
    ensures Ring(head, done' + rest[1..])
  {
    ghost var s := done + rest;
    ghost var k := |done|;
    assert s[k] == node;
    done' := done;
    if Chosen(node, drop) {
      ListRemove(node, head, s, k);
      assert s[..k] + s[k + 1..] == done + rest[1..];
    } else {
      done' := done + [node];
      assert s == done' + rest[1..];
    }
  }

  lemma RingNeighbours<T(!new)>(head: ListNode<T>, s: seq<ListNode<T>>, k: nat)
    requires Ring(head, s) && k < |s|
    ensures s[k].next != null && s[k].prev != null
    ensures s[k].next == head || s[k].next in s
    ensures s[k].prev == head || s[k].prev in s
  {
    RingLinks(head, s);
  }

  /**
    list_for_each_safe with a body that removes the nodes it chooses (all of them, when a pool is freed):
    every element is still visited once, and just the others remain.
  */
  method RemoveWhere<T(!new)>(head: ListNode<T>, drop: T -> bool, ghost s: seq<ListNode<T>>)
      returns (visited: seq<ListNode<T>>)
    requires Ring(head, s)
    modifies head, s
    ensures visited == s && Ring(head, Kept(s, drop))
  {
    visited := [];
    ghost var done: seq<ListNode<T>> := [];
    assert done + s == s && s[0..] == s;
    RingLinks(head, s);
    var node := head.next;
    var next := node.next;
    while node != head
      invariant |visited| <= |s| && visited == s[..|visited|]
      invariant done + Kept(s[|visited|..], drop) == Kept(s, drop)
      invariant Ring(head, done + s[|visited|..]) && Within(done, s)
      invariant node == if |visited| < |s| then s[|visited|] else head
      invariant next == if |visited| + 1 < |s| then s[|visited| + 1] else if |visited| < |s| then head else node.next
      decreases |s| - |visited|
    {
      ghost var i := |visited|;
      SuffixStep(s, i);
      KeptStep(done, s, i, drop);
      NeighboursWithin(head, done, s, i);
      done := RemoveIfChosen(node, head, drop, done, s[i..]);
      visited := visited + [node];
      node := next;
      NextOf(head, done, s[i + 1..]);
      next := node.next;
    }
    assert s[|s|..] == [] && done + [] == done;
  }

  lemma NeighboursWithin<T(!new)>(head: ListNode<T>, done: seq<ListNode<T>>, s: seq<ListNode<T>>, i: nat)
    requires i < |s| && Within(done, s) && Ring(head, done + s[i..])
    ensures s[i].next != null && (s[i].next == head || s[i].next in s)
    ensures s[i].prev != null && (s[i].prev == head || s[i].prev in s)
  {
    assert (done + s[i..])[|done|] == s[i];
    RingNeighbours(head, done + s[i..], |done|);
  }

  lemma KeptStep<T(!new)>(done: seq<ListNode<T>>, s: seq<ListNode<T>>, i: nat, drop: T -> bool)
    requires i < |s|
    ensures done + Kept(s[i..], drop) ==
            (done + if Chosen(s[i], drop) then [] else [s[i]]) + Kept(s[i + 1..], drop)
  {
    SuffixStep(s, i);
    var keep := if Chosen(s[i], drop) then [] else [s[i]];
    assert done + (keep + Kept(s[i + 1..], drop)) == (done + keep) + Kept(s[i + 1..], drop);
  }

  lemma SuffixStep<T>(s: seq<T>, i: nat)
    requires i < |s|
    ensures s[i..] == [s[i]] + s[i + 1..] && s[i..][1..] == s[i + 1..] && s[..i + 1] == s[..i] + [s[i]]
  {}

  ghost predicate Within<T>(a: seq<T>, b: seq<T>) { forall x :: x in a ==> x in b }

  lemma NextOf<T(!new)>(head: ListNode<T>, done: seq<ListNode<T>>, rest: seq<ListNode<T>>)
    requires Ring(head, done + rest)
    ensures head.next != null && (rest != [] ==> rest[0] != head)
    ensures rest != [] ==> rest[0].next == if |rest| > 1 then rest[1] else head
  {
    RingLinks(head, done + rest);
    if rest != [] {
      assert (done + rest)[|done|] == rest[0];
      assert |rest| > 1 ==> (done + rest)[|done| + 1] == rest[1];
    }
  }
}
