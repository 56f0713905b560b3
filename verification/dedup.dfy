/** Keeping the first occurrence of every key, in place, and the laws of doing so (service/src/metadata.c). */
module FirstKeys {

  type u32 = x: int | 0 <= x < 0x1_0000_0000

  // s without the elements whose key is in ks.
  ghost function Drop<T(!new)>(s: seq<T>, key: T -> u32, ks: set<u32>): (r: seq<T>)
    ensures |r| <= |s|
  {
    if s == [] then []
    else (if key(s[0]) in ks then [] else [s[0]]) + Drop(s[1..], key, ks)
  }

  ghost function Dedup<T(!new)>(s: seq<T>, key: T -> u32): (r: seq<T>)
    decreases |s|
  {
    if s == [] then [] else [s[0]] + Dedup(Drop(s[1..], key, {key(s[0])}), key)
  }

  ghost function Keys<T(!new)>(s: seq<T>, key: T -> u32): set<u32> {
    set x | x in s :: key(x)
  }

  ghost predicate DistinctKeys<T(!new)>(s: seq<T>, key: T -> u32) {
    forall i, j :: 0 <= i < j < |s| ==> key(s[i]) != key(s[j])
  }

  // No earlier element has the key of s[i].
  ghost predicate IsFirst<T(!new)>(s: seq<T>, key: T -> u32, i: nat)
    requires i < |s|
  {
    forall j :: 0 <= j < i ==> key(s[j]) != key(s[i])
  }

  /** The reference: the elements of s[..n], in order, whose key has not occurred before. */
  ghost function FirstOccurrences<T(!new)>(s: seq<T>, key: T -> u32, n: nat): seq<T>
    requires n <= |s|
  {
    if n == 0 then []
    else FirstOccurrences(s, key, n - 1) + if IsFirst(s, key, n - 1) then [s[n - 1]] else []
  }

  lemma {:induction false} DropContents<T(!new)>(s: seq<T>, key: T -> u32, ks: set<u32>)
    ensures forall x :: x in Drop(s, key, ks) <==> x in s && key(x) !in ks
  {
    if s != [] {
      DropContents(s[1..], key, ks);
    }
  }

  lemma {:induction false} DropAppend<T(!new)>(a: seq<T>, b: seq<T>, key: T -> u32, ks: set<u32>)
    ensures Drop(a + b, key, ks) == Drop(a, key, ks) + Drop(b, key, ks)
  {
    if a == [] {
      assert a + b == b;
    } else {
      assert (a + b)[1..] == a[1..] + b;
      DropAppend(a[1..], b, key, ks);
    }
  }

  lemma {:induction false} DropTwice<T(!new)>(s: seq<T>, key: T -> u32, ks: set<u32>, ls: set<u32>)
    ensures Drop(Drop(s, key, ks), key, ls) == Drop(s, key, ks + ls)
  {
    if s != [] {
      DropTwice(s[1..], key, ks, ls);
      if key(s[0]) !in ks {
        assert ([s[0]] + Drop(s[1..], key, ks))[1..] == Drop(s[1..], key, ks);
      } else {
        assert [] + Drop(s[1..], key, ks) == Drop(s[1..], key, ks);
      }
    }
  }

  lemma {:induction false} DropNothing<T(!new)>(s: seq<T>, key: T -> u32, ks: set<u32>)
    requires forall x :: x in s ==> key(x) !in ks
    ensures Drop(s, key, ks) == s
  {
    if s != [] {
      DropNothing(s[1..], key, ks);
    }
  }

  lemma {:induction false} DropEverything<T(!new)>(s: seq<T>, key: T -> u32, ks: set<u32>)
    requires forall x :: x in s ==> key(x) in ks
    ensures Drop(s, key, ks) == []
  {
    if s != [] {
      DropEverything(s[1..], key, ks);
    }
  }

  lemma {:induction false} DedupDrop<T(!new)>(s: seq<T>, key: T -> u32, ks: set<u32>)
    ensures Dedup(Drop(s, key, ks), key) == Drop(Dedup(s, key), key, ks)
    decreases |s|
  {
    if s != [] {
      var k := key(s[0]);
      var rest := Drop(s[1..], key, {k});
      DedupDrop(rest, key, ks);
      DropTwice(s[1..], key, {k}, ks);
      DropTwice(s[1..], key, ks, {k});
      assert {k} + ks == ks + {k};
      DropAppend([s[0]], Dedup(rest, key), key, ks);
      if k in ks {
        assert ks + {k} == ks;
        assert [] + Drop(s[1..], key, ks) == Drop(s[1..], key, ks);
        assert Drop([s[0]], key, ks) == [];
      } else {
        assert Drop([s[0]], key, ks) == [s[0]];
        assert ([s[0]] + Drop(s[1..], key, ks))[1..] == Drop(s[1..], key, ks);
      }
    }
  }

  lemma {:induction false} DedupKeys<T(!new)>(s: seq<T>, key: T -> u32)
    ensures Keys(Dedup(s, key), key) == Keys(s, key)
    ensures forall x :: x in Dedup(s, key) ==> x in s
    decreases |s|
  {
    if s != [] {
      var rest := Drop(s[1..], key, {key(s[0])});
      DedupKeys(rest, key);
      DropContents(s[1..], key, {key(s[0])});
      forall k | k in Keys(s, key) ensures k in Keys(Dedup(s, key), key) {
        if k == key(s[0]) {
          assert s[0] in Dedup(s, key);
        } else {
          var x :| x in s && key(x) == k;
          assert x in s[1..];
          assert k in Keys(rest, key);
          var y :| y in Dedup(rest, key) && key(y) == k;
          assert y in Dedup(s, key);
        }
      }
    }
  }

  lemma {:induction false} DedupDistinct<T(!new)>(s: seq<T>, key: T -> u32)
    ensures DistinctKeys(Dedup(s, key), key)
    decreases |s|
  {
    if s != [] {
      var rest := Drop(s[1..], key, {key(s[0])});
      DedupDistinct(rest, key);
      DropContents(s[1..], key, {key(s[0])});
      DedupKeys(rest, key);
    }
  }

  lemma {:induction false} DedupOfDistinct<T(!new)>(s: seq<T>, key: T -> u32)
    requires DistinctKeys(s, key)
    ensures Dedup(s, key) == s
    decreases |s|
  {
    if s != [] {
      DropNothing(s[1..], key, {key(s[0])});
      DedupOfDistinct(s[1..], key);
    }
  }

  /** Deduplicating a concatenation: the second part only adds keys that the first one lacks. */
  lemma {:induction false} DedupAppend<T(!new)>(a: seq<T>, b: seq<T>, key: T -> u32)
    ensures Dedup(a + b, key) == Dedup(a, key) + Drop(Dedup(b, key), key, Keys(a, key))
    decreases |a|
  {
    if a == [] {
      assert a + b == b;
      DropNothing(Dedup(b, key), key, Keys(a, key));
    } else {
      var k := key(a[0]);
      var rest := Drop(a[1..], key, {k});
      assert (a + b)[1..] == a[1..] + b;
      DropAppend(a[1..], b, key, {k});
      DedupAppend(rest, Drop(b, key, {k}), key);
      DedupDrop(b, key, {k});
      DropTwice(Dedup(b, key), key, {k}, Keys(rest, key));
      KeysOfRest(a, key);
    }
  }

  lemma KeysOfRest<T(!new)>(a: seq<T>, key: T -> u32)
    requires a != []
    ensures {key(a[0])} + Keys(Drop(a[1..], key, {key(a[0])}), key) == Keys(a, key)
  {
    var rest := Drop(a[1..], key, {key(a[0])});
    DropContents(a[1..], key, {key(a[0])});
    forall k | k in Keys(a, key) && k != key(a[0]) ensures k in Keys(rest, key) {
      var x :| x in a && key(x) == k;
      assert x in a[1..] && x in rest;
    }
  }

  /** The in-place algorithm's result is the order-preserving first-occurrence filter. */
  lemma {:induction false} DedupIsFirstOccurrences<T(!new)>(s: seq<T>, key: T -> u32, n: nat)
    requires n <= |s|
    ensures Dedup(s[..n], key) == FirstOccurrences(s, key, n)
  {
    if n > 0 {
      DedupIsFirstOccurrences(s, key, n - 1);
      assert s[..n] == s[..n - 1] + [s[n - 1]];
      DedupAppend(s[..n - 1], [s[n - 1]], key);
      assert Dedup([s[n - 1]], key) == [s[n - 1]];
      if IsFirst(s, key, n - 1) {
        DropNothing([s[n - 1]], key, Keys(s[..n - 1], key));
      } else {
        var j :| 0 <= j < n - 1 && key(s[j]) == key(s[n - 1]);
        assert s[..n - 1][j] in s[..n - 1];
        DropEverything([s[n - 1]], key, Keys(s[..n - 1], key));
      }
    }
  }

  /** A list that is deduplicated already can be extended instead of the original. */
  lemma DedupLeft<T(!new)>(a: seq<T>, b: seq<T>, key: T -> u32)
    ensures Dedup(Dedup(a, key) + b, key) == Dedup(a + b, key)
  {
    DedupAppend(a, b, key);
    DedupAppend(Dedup(a, key), b, key);
    DedupDistinct(a, key);
    DedupOfDistinct(Dedup(a, key), key);
    DedupKeys(a, key);
  }

  /** What is all there already may be repeated. */
  lemma DedupAbsorb<T(!new)>(a: seq<T>, m: seq<T>, b: seq<T>, key: T -> u32)
    requires Keys(m, key) <= Keys(a, key)
    ensures Dedup(a + (m + b), key) == Dedup(a + b, key)
  {
    DedupAppend(a, m + b, key);
    DedupAppend(m, b, key);
    DedupAppend(a, b, key);
    DropCovered(m, Dedup(b, key), key, Keys(a, key));
  }

  lemma DropCovered<T(!new)>(m: seq<T>, d: seq<T>, key: T -> u32, ks: set<u32>)
    requires Keys(m, key) <= ks
    ensures Drop(Dedup(m, key) + Drop(d, key, Keys(m, key)), key, ks) == Drop(d, key, ks)
  {
    DedupKeys(m, key);
    forall x | x in Dedup(m, key) ensures key(x) in ks {
      assert key(x) in Keys(m, key);
    }
    DropEverything(Dedup(m, key), key, ks);
    DropAppend(Dedup(m, key), Drop(d, key, Keys(m, key)), key, ks);
    DropTwice(d, key, Keys(m, key), ks);
    assert Keys(m, key) + ks == ks;
  }

  // ---- the loops ---------------------------------------------------------------------------

  /** The innermost loop: close the gap at j. */
  method CloseGap<T(!new)>(a: array<T>, j: nat, count: nat)
    requires j < count <= a.Length
    modifies a
    ensures a[..] == old(a[..])[..j] + old(a[..])[j + 1..count] + old(a[..])[count - 1..]
  {
    var k := j;
    while k < count - 1
      invariant j <= k <= count - 1
      invariant a[..j] == old(a[..j]) && a[j..k] == old(a[j + 1..k + 1]) && a[k..] == old(a[k..])
    {
      a[k] := a[k + 1];
      k := k + 1;
    }
    assert a[..] == a[..j] + a[j..k] + a[k..];
  }

  /** Between j and count there may still be elements with the key of element i; before j there are none. */
  ghost predicate Removing<T(!new)>(s: seq<T>, i: nat, j: nat, count: nat, key: T -> u32,
                                    s0: seq<T>, n: nat, end: nat)
  {
    && i < j <= count <= n <= end <= |s| == |s0|
    && s[..i + 1] == s0[..i + 1] && s[end..] == s0[end..]
    && s[i + 1..j] + Drop(s[j..count], key, {key(s0[i])}) == Drop(s0[i + 1..n], key, {key(s0[i])})
  }

  lemma RemovingKept<T(!new)>(s: seq<T>, i: nat, j: nat, count: nat, key: T -> u32, s0: seq<T>, n: nat, end: nat)
    requires Removing(s, i, j, count, key, s0, n, end) && j < count && key(s[j]) != key(s0[i])
    ensures Removing(s, i, j + 1, count, key, s0, n, end)
  {
    assert s[j..count] == [s[j]] + s[j + 1..count];
    assert s[i + 1..j + 1] == s[i + 1..j] + [s[j]];
  }

  lemma RemovingGap<T(!new)>(s: seq<T>, t: seq<T>, i: nat, j: nat, count: nat, key: T -> u32,
                             s0: seq<T>, n: nat, end: nat)
    requires Removing(s, i, j, count, key, s0, n, end) && j < count && key(s[j]) == key(s0[i])
    requires t == s[..j] + s[j + 1..count] + s[count - 1..]
    ensures Removing(t, i, j, count - 1, key, s0, n, end)
  {
    assert s[j..count] == [s[j]] + s[j + 1..count];
    assert t[j..count - 1] == s[j + 1..count];
    assert t[..i + 1] == s[..i + 1] && t[end..] == s[end..] && t[i + 1..j] == s[i + 1..j];
  }

  lemma RemovingDone<T(!new)>(s: seq<T>, i: nat, count: nat, key: T -> u32, s0: seq<T>, n: nat, end: nat)
    requires Removing(s, i, count, count, key, s0, n, end)
    ensures s[..i + 1] + Dedup(s[i + 1..count], key) == s0[..i] + Dedup(s0[i..n], key)
  {
    assert s[count..count] == [];
    assert s[i + 1..count] + [] == s[i + 1..count];
    assert s0[i..n][1..] == s0[i + 1..n];
    assert s[..i + 1] == s0[..i] + [s0[i]];
  }

  method RemoveLater<T(!new)>(a: array<T>, i: nat, n: nat, end: nat, key: T -> u32) returns (count: nat)
    requires i < n <= end <= a.Length
    modifies a
    ensures i < count <= n && a[..][end..] == old(a[..][end..])
    ensures a[..][..i + 1] + Dedup(a[..][i + 1..count], key) == old(a[..])[..i] + Dedup(old(a[..])[i..n], key)
  {
    ghost var s0 := a[..];
    count := n;
    var j: nat := i + 1;
    while j < count
      invariant Removing(a[..], i, j, count, key, s0, n, end)
      decreases count - j
    {
      assert a[i] == a[..][..i + 1][i] == s0[i];
      if key(a[i]) == key(a[j]) {
        ghost var s := a[..];
        CloseGap(a, j, count);
        RemovingGap(s, a[..], i, j, count, key, s0, n, end);
        count := count - 1;
        j := j - 1;
      } else {
        RemovingKept(a[..], i, j, count, key, s0, n, end);
      }
      j := j + 1;
    }
    RemovingDone(a[..], i, count, key, s0, n, end);
  }

  /** One of the three loop nests of metadata_remove_dup; the first m elements are the result. */
  method RemoveDup<T(!new)>(a: array<T>, n: nat, key: T -> u32) returns (m: nat)
    requires n <= a.Length
    modifies a
    ensures m <= n && a[..m] == Dedup(old(a[..n]), key)
    ensures a[n..] == old(a[n..])
  {
    ghost var s0 := a[..];
    var count, i := n, 0;
    assert s0[0..count] == s0[..n] && s0[..0] == [];
    while i < count
      invariant 0 <= i <= count <= n
      invariant a[..][..i] + Dedup(a[..][i..count], key) == Dedup(s0[..n], key)
      invariant a[..][n..] == s0[n..]
    {
      count := RemoveLater(a, i, count, n, key);
      i := i + 1;
    }
    assert a[..][i..count] == [];
    m := count;
    assert a[..][..m] == a[..m] && a[..][n..] == a[n..];
    assert s0[..n] == old(a[..n]) && s0[n..] == old(a[n..]);
  }
}
