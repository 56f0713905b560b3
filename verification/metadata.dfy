/** Metadata: merging, the session-wide fold, and calibration updates (service/src/metadata.c). */
module Metadata {
  import opened Common
  import opened FirstKeys

  datatype KeyValue = KeyValue(key: u32, value: u32)

  /** Graph keys, calibration keys and sub-graph properties. */
  datatype Meta = Meta(gkv: seq<KeyValue>, ckv: seq<KeyValue>, propId: u32, props: seq<u32>)

  function KeyOf(kv: KeyValue): u32 { kv.key }

  function Itself(x: u32): u32 { x }

  // ---- merging -----------------------------------------------------------------------------

  function Gkvs(sources: seq<Option<Meta>>): seq<KeyValue> {
    if sources == [] then []
    else Gkvs(sources[..|sources| - 1]) +
         match sources[|sources| - 1] case None => [] case Some(m) => m.gkv
  }

  function Ckvs(sources: seq<Option<Meta>>): seq<KeyValue> {
    if sources == [] then []
    else Ckvs(sources[..|sources| - 1]) +
         match sources[|sources| - 1] case None => [] case Some(m) => m.ckv
  }

  function Props(sources: seq<Option<Meta>>): seq<u32> {
    if sources == [] then []
    else Props(sources[..|sources| - 1]) +
         match sources[|sources| - 1] case None => [] case Some(m) => m.props
  }

  // The property id of the last source there is; 0 if there is none.
  function PropId(sources: seq<Option<Meta>>): u32 {
    if sources == [] then 0
    else match sources[|sources| - 1]
         case None => PropId(sources[..|sources| - 1])
         case Some(m) => m.propId
  }

  ghost function Merged(sources: seq<Option<Meta>>): Meta {
    Meta(Dedup(Gkvs(sources), KeyOf), Dedup(Ckvs(sources), KeyOf),
         PropId(sources), Dedup(Props(sources), Itself))
  }

  // memcpy of src to the given offset; returns the offset behind it.
  method CopyTo<T(!new)>(dst: array<T>, offset: nat, src: seq<T>) returns (next: nat)
    requires offset + |src| <= dst.Length
    modifies dst
    ensures next == offset + |src| && dst[..next] == old(dst[..offset]) + src
  {
    for k := 0 to |src|
      invariant dst[..offset + k] == old(dst[..offset]) + src[..k]
    {
      dst[offset + k] := src[k];
    }
    next := offset + |src|;
  }

  lemma {:induction false} PartsFit(sources: seq<Option<Meta>>, i: nat)
    requires i <= |sources|
    ensures |Gkvs(sources[..i])| <= |Gkvs(sources)|
    ensures |Ckvs(sources[..i])| <= |Ckvs(sources)|
    ensures |Props(sources[..i])| <= |Props(sources)|
    decreases |sources|
  {
    if i < |sources| {
      PartsFit(sources[..|sources| - 1], i);
      assert sources[..|sources| - 1][..i] == sources[..i];
    } else {
      assert sources[..i] == sources;
    }
  }

  method Totals(sources: seq<Option<Meta>>) returns (numGkv: nat, numCkv: nat, numProps: nat)
    ensures numGkv == |Gkvs(sources)| && numCkv == |Ckvs(sources)| && numProps == |Props(sources)|
  {
    numGkv, numCkv, numProps := 0, 0, 0;
    for i := 0 to |sources|
      invariant numGkv == |Gkvs(sources[..i])| && numCkv == |Ckvs(sources[..i])|
      invariant numProps == |Props(sources[..i])|
    {
      assert sources[..i + 1][..i] == sources[..i];
      if sources[i].Some? {
        numGkv := numGkv + |sources[i].value.gkv|;
        numCkv := numCkv + |sources[i].value.ckv|;
        numProps := numProps + |sources[i].value.props|;
      }
    }
    assert sources[..|sources|] == sources;
  }

  /** metadata_remove_dup: all three lists. */
  method RemoveDups(gkv: array<KeyValue>, ckv: array<KeyValue>, props: array<u32>)
      returns (numGkv: nat, numCkv: nat, numProps: nat)
    requires gkv != ckv
    modifies gkv, ckv, props
    ensures numGkv <= gkv.Length && gkv[..numGkv] == Dedup(old(gkv[..]), KeyOf)
    ensures numCkv <= ckv.Length && ckv[..numCkv] == Dedup(old(ckv[..]), KeyOf)
    ensures numProps <= props.Length && props[..numProps] == Dedup(old(props[..]), Itself)
  {
    assert gkv[..gkv.Length] == gkv[..] && ckv[..ckv.Length] == ckv[..] && props[..props.Length] == props[..];
    numGkv := RemoveDup(gkv, gkv.Length, KeyOf);
    numCkv := RemoveDup(ckv, ckv.Length, KeyOf);
    numProps := RemoveDup(props, props.Length, Itself);
  }

  /** metadata_merge: total up, allocate, copy source after source, remove the duplicates. */
  method Merge(sources: seq<Option<Meta>>, memory: bool) returns (m: Option<Meta>)
    ensures m == if memory then Some(Merged(sources)) else None
  {
    if !memory {
      return None;
    }
    var numGkv, numCkv, numProps := Totals(sources);
    var gkv := new KeyValue[numGkv](_ => KeyValue(0, 0));
    var ckv := new KeyValue[numCkv](_ => KeyValue(0, 0));
    var props := new u32[numProps](_ => 0);
    var propId := CopySources(sources, gkv, ckv, props);
    numGkv, numCkv, numProps := RemoveDups(gkv, ckv, props);
    m := Some(Meta(gkv[..numGkv], ckv[..numCkv], propId, props[..numProps]));
  }

  method CopySources(sources: seq<Option<Meta>>, gkv: array<KeyValue>, ckv: array<KeyValue>, props: array<u32>)
      returns (propId: u32)
    requires gkv != ckv
    requires gkv.Length == |Gkvs(sources)| && ckv.Length == |Ckvs(sources)| && props.Length == |Props(sources)|
    modifies gkv, ckv, props
    ensures gkv[..] == Gkvs(sources) && ckv[..] == Ckvs(sources) && props[..] == Props(sources)
    ensures propId == PropId(sources)
  {
    var gkvOffset, ckvOffset, propOffset := 0, 0, 0;
    propId := 0;
    for i := 0 to |sources|
      invariant gkvOffset == |Gkvs(sources[..i])| <= gkv.Length && gkv[..gkvOffset] == Gkvs(sources[..i])
      invariant ckvOffset == |Ckvs(sources[..i])| <= ckv.Length && ckv[..ckvOffset] == Ckvs(sources[..i])
      invariant propOffset == |Props(sources[..i])| <= props.Length && props[..propOffset] == Props(sources[..i])
      invariant propId == PropId(sources[..i])
    {
      assert sources[..i + 1][..i] == sources[..i];
      PartsFit(sources, i + 1);
      match sources[i] {
        case None =>
        case Some(m) =>
          gkvOffset := CopyTo(gkv, gkvOffset, m.gkv);
          ckvOffset := CopyTo(ckv, ckvOffset, m.ckv);
          propId := m.propId;
          propOffset := CopyTo(props, propOffset, m.props);
      }
    }
    assert sources[..|sources|] == sources;
  }

  // ---- the fold over a session's AIFs ------------------------------------------------------

  /** What an AIF contributes: the session-AIF metadata and its device's. */
  datatype Interface = Interface(aif: Meta, dev: Meta)

  function PoolSources(pool: seq<Interface>): seq<Option<Meta>> {
    if pool == [] then []
    else PoolSources(pool[..|pool| - 1]) + [Some(pool[|pool| - 1].aif), Some(pool[|pool| - 1].dev)]
  }

  // The first AIF that still counts: the one after the last failed allocation.
  function RestartAt(memory: seq<bool>): (n: nat)
    ensures n <= |memory|
    ensures n == 0 || !memory[n - 1]
    ensures forall k :: n <= k < |memory| ==> memory[k]
  {
    if memory == [] then 0
    else if !memory[|memory| - 1] then |memory|
    else RestartAt(memory[..|memory| - 1])
  }

  // Nothing if there is no AIF, or else one merge of session, aif1, dev1, aif2, dev2 and so on.
  ghost function MergedPool(sess: Meta, pool: seq<Interface>): Option<Meta> {
    if pool == [] then None else Some(Merged([Some(sess)] + PoolSources(pool)))
  }

  /**
    session_get_merged_metadata: although the session's own metadata goes into every step, the result is
    that of a single merge. A failed allocation starts it afresh with the AIFs that follow.
  */
  method SessionMergedMetadata(sess: Meta, pool: seq<Interface>, memory: seq<bool>) returns (merged: Option<Meta>)
    requires |memory| == |pool|
    ensures merged == MergedPool(sess, pool[RestartAt(memory)..])
  {
    merged := None;
    var temp: Option<Meta> := None;
    for i := 0 to |pool|
      invariant merged == temp
      invariant merged == MergedPool(sess, pool[RestartAt(memory[..i])..i])
    {
      merged := Merge([temp, Some(sess), Some(pool[i].aif), Some(pool[i].dev)], memory[i]);
      RestartStep(memory, i);
      ghost var n := RestartAt(memory[..i]);
      MergeStep(sess, pool[n..i], pool[i]);
      SliceSnoc(pool, n, i);
      temp := merged;
    }
    assert memory[..|pool|] == memory;
    assert pool[RestartAt(memory)..|pool|] == pool[RestartAt(memory)..];
  }

  lemma RestartStep(memory: seq<bool>, i: nat)
    requires i < |memory|
    ensures RestartAt(memory[..i + 1]) == if memory[i] then RestartAt(memory[..i]) else i + 1
  {
    assert memory[..i + 1][..i] == memory[..i];
  }

  lemma MergeStep(sess: Meta, pool: seq<Interface>, x: Interface)
    ensures Some(Merged([MergedPool(sess, pool), Some(sess), Some(x.aif), Some(x.dev)])) ==
            MergedPool(sess, pool + [x])
  {
    if pool == [] {
      FirstStep(sess, x);
      assert pool + [x] == [x];
    } else {
      NextStep(sess, pool, x);
    }
  }

  lemma SourcesSnoc(s: seq<Option<Meta>>, x: Meta)
    ensures Gkvs(s + [Some(x)]) == Gkvs(s) + x.gkv
    ensures Ckvs(s + [Some(x)]) == Ckvs(s) + x.ckv
    ensures Props(s + [Some(x)]) == Props(s) + x.props
    ensures PropId(s + [Some(x)]) == x.propId
  {
    assert (s + [Some(x)])[..|s|] == s;
  }

  lemma SourcesAppend(s: seq<Option<Meta>>, x: Interface)
    ensures Gkvs(s + [Some(x.aif), Some(x.dev)]) == Gkvs(s) + (x.aif.gkv + x.dev.gkv)
    ensures Ckvs(s + [Some(x.aif), Some(x.dev)]) == Ckvs(s) + (x.aif.ckv + x.dev.ckv)
    ensures Props(s + [Some(x.aif), Some(x.dev)]) == Props(s) + (x.aif.props + x.dev.props)
    ensures PropId(s + [Some(x.aif), Some(x.dev)]) == x.dev.propId
  {
    SourcesSnoc(s, x.aif);
    SourcesSnoc(s + [Some(x.aif)], x.dev);
    assert s + [Some(x.aif), Some(x.dev)] == s + [Some(x.aif)] + [Some(x.dev)];
    assert Gkvs(s) + x.aif.gkv + x.dev.gkv == Gkvs(s) + (x.aif.gkv + x.dev.gkv);
    assert Ckvs(s) + x.aif.ckv + x.dev.ckv == Ckvs(s) + (x.aif.ckv + x.dev.ckv);
    assert Props(s) + x.aif.props + x.dev.props == Props(s) + (x.aif.props + x.dev.props);
  }

  lemma SourcesOne(a: Option<Meta>)
    ensures Gkvs([a]) == match a case None => [] case Some(m) => m.gkv
    ensures Ckvs([a]) == match a case None => [] case Some(m) => m.ckv
    ensures Props([a]) == match a case None => [] case Some(m) => m.props
  {
    assert [a][..0] == [];
  }

  // Any source, then the session, then an AIF with its device.
  lemma Sources4(a: Option<Meta>, b: Meta, x: Interface)
    ensures Gkvs([a, Some(b), Some(x.aif), Some(x.dev)]) == Gkvs([a]) + (b.gkv + (x.aif.gkv + x.dev.gkv))
    ensures Ckvs([a, Some(b), Some(x.aif), Some(x.dev)]) == Ckvs([a]) + (b.ckv + (x.aif.ckv + x.dev.ckv))
    ensures Props([a, Some(b), Some(x.aif), Some(x.dev)]) == Props([a]) + (b.props + (x.aif.props + x.dev.props))
    ensures PropId([a, Some(b), Some(x.aif), Some(x.dev)]) == x.dev.propId
  {
    SourcesSnoc([a], b);
    assert [a] + [Some(b)] == [a, Some(b)];
    SourcesAppend([a, Some(b)], x);
    assert [a, Some(b)] + [Some(x.aif), Some(x.dev)] == [a, Some(b), Some(x.aif), Some(x.dev)];
  }

  // The keys of the session are among those of every merge that starts with it.
  lemma {:induction false} SessionIncluded(sess: Meta, pool: seq<Interface>)
    ensures var all := [Some(sess)] + PoolSources(pool);
            && Keys(sess.gkv, KeyOf) <= Keys(Gkvs(all), KeyOf)
            && Keys(sess.ckv, KeyOf) <= Keys(Ckvs(all), KeyOf)
            && Keys(sess.props, Itself) <= Keys(Props(all), Itself)
  {
    var all := [Some(sess)] + PoolSources(pool);
    if pool == [] {
      assert all == [Some(sess)];
      SourcesOne(Some(sess));
    } else {
      var rest := [Some(sess)] + PoolSources(pool[..|pool| - 1]);
      SessionIncluded(sess, pool[..|pool| - 1]);
      var x := pool[|pool| - 1];
      assert all == rest + [Some(x.aif), Some(x.dev)];
      SourcesAppend(rest, x);
      KeysAppend(Gkvs(rest), x.aif.gkv + x.dev.gkv, KeyOf);
      KeysAppend(Ckvs(rest), x.aif.ckv + x.dev.ckv, KeyOf);
      KeysAppend(Props(rest), x.aif.props + x.dev.props, Itself);
    }
  }

  lemma KeysAppend<T(!new)>(a: seq<T>, b: seq<T>, key: T -> u32)
    ensures Keys(a + b, key) == Keys(a, key) + Keys(b, key)
  {
    forall k | k in Keys(a, key) + Keys(b, key) ensures k in Keys(a + b, key) {
      var x :| (x in a || x in b) && key(x) == k;
      assert x in a + b;
    }
  }

  lemma SliceSnoc<T>(s: seq<T>, lo: nat, i: nat)
    requires lo <= i < |s|
    ensures s[lo..i + 1] == s[lo..i] + [s[i]]
  {}

  lemma FirstStep(sess: Meta, x: Interface)
    ensures Merged([None, Some(sess), Some(x.aif), Some(x.dev)]) == Merged([Some(sess)] + PoolSources([x]))
  {
    Sources4(None, sess, x);
    SourcesOne(None);
    SourcesOne(Some(sess));
    assert [x][..0] == [];
    SourcesAppend([Some(sess)], x);
    assert PoolSources([x]) == [Some(x.aif), Some(x.dev)];
    NothingFirst(sess.gkv + (x.aif.gkv + x.dev.gkv));
    NothingFirst(sess.ckv + (x.aif.ckv + x.dev.ckv));
    NothingFirst(sess.props + (x.aif.props + x.dev.props));
  }

  lemma NothingFirst<T>(s: seq<T>)
    ensures [] + s == s
  {}

  /** Merging the session again along with the next AIF is the same as merging just the AIF. */
  lemma NextStep(sess: Meta, pool: seq<Interface>, x: Interface)
    ensures Merged([Some(Merged([Some(sess)] + PoolSources(pool))), Some(sess), Some(x.aif), Some(x.dev)]) ==
            Merged([Some(sess)] + PoolSources(pool + [x]))
  {
    var all := [Some(sess)] + PoolSources(pool);
    assert (pool + [x])[..|pool|] == pool;
    assert [Some(sess)] + PoolSources(pool + [x]) == all + [Some(x.aif), Some(x.dev)];
    SessionIncluded(sess, pool);
    NextMerged(all, sess, x);
  }

  lemma NextMerged(all: seq<Option<Meta>>, sess: Meta, x: Interface)
    requires Keys(sess.gkv, KeyOf) <= Keys(Gkvs(all), KeyOf)
    requires Keys(sess.ckv, KeyOf) <= Keys(Ckvs(all), KeyOf)
    requires Keys(sess.props, Itself) <= Keys(Props(all), Itself)
    ensures Merged([Some(Merged(all)), Some(sess), Some(x.aif), Some(x.dev)]) ==
            Merged(all + [Some(x.aif), Some(x.dev)])
  {
    Sources4(Some(Merged(all)), sess, x);
    SourcesOne(Some(Merged(all)));
    SourcesAppend(all, x);
    AgainAndMore(Gkvs(all), sess.gkv, x.aif.gkv + x.dev.gkv, KeyOf);
    AgainAndMore(Ckvs(all), sess.ckv, x.aif.ckv + x.dev.ckv, KeyOf);
    AgainAndMore(Props(all), sess.props, x.aif.props + x.dev.props, Itself);
  }

  lemma AgainAndMore<T(!new)>(a: seq<T>, m: seq<T>, b: seq<T>, key: T -> u32)
    requires Keys(m, key) <= Keys(a, key)
    ensures Dedup(Dedup(a, key) + (m + b), key) == Dedup(a + b, key)
  {
    DedupLeft(a, m + b, key);
    DedupAbsorb(a, m, b, key);
  }

  // ---- which source wins -------------------------------------------------------------------

  ghost function Lookup(kvs: seq<KeyValue>, k: u32): Option<u32> {
    if kvs == [] then None
    else if kvs[0].key == k then Some(kvs[0].value)
    else Lookup(kvs[1..], k)
  }

  lemma {:induction false} LookupDrop(kvs: seq<KeyValue>, ks: set<u32>, k: u32)
    requires k !in ks
    ensures Lookup(Drop(kvs, KeyOf, ks), k) == Lookup(kvs, k)
  {
    if kvs != [] {
      LookupDrop(kvs[1..], ks, k);
      if kvs[0].key in ks {
        assert [] + Drop(kvs[1..], KeyOf, ks) == Drop(kvs[1..], KeyOf, ks);
      } else {
        assert ([kvs[0]] + Drop(kvs[1..], KeyOf, ks))[1..] == Drop(kvs[1..], KeyOf, ks);
      }
    }
  }

  /** Removing duplicates changes no key's value. */
  lemma {:induction false} LookupDedup(kvs: seq<KeyValue>, k: u32)
    ensures Lookup(Dedup(kvs, KeyOf), k) == Lookup(kvs, k)
    decreases |kvs|
  {
    if kvs != [] {
      var rest := Drop(kvs[1..], KeyOf, {kvs[0].key});
      assert ([kvs[0]] + Dedup(rest, KeyOf))[1..] == Dedup(rest, KeyOf);
      if kvs[0].key != k {
        LookupDedup(rest, k);
        LookupDrop(kvs[1..], {kvs[0].key}, k);
      }
    }
  }

  lemma {:induction false} LookupAppend(a: seq<KeyValue>, b: seq<KeyValue>, k: u32)
    ensures Lookup(a + b, k) == if k in Keys(a, KeyOf) then Lookup(a, k) else Lookup(b, k)
  {
    if a == [] {
      assert a + b == b;
    } else {
      assert (a + b)[1..] == a[1..] + b;
      LookupAppend(a[1..], b, k);
      KeysAppend([a[0]], a[1..], KeyOf);
      assert a == [a[0]] + a[1..];
      assert KeyOf(a[0]) in Keys(a, KeyOf);
      assert Keys([a[0]], KeyOf) == {a[0].key};
    }
  }

  /** The value of k in the first of these lists that has the key. */
  ghost function FirstFound(lists: seq<seq<KeyValue>>, k: u32): Option<u32> {
    if lists == [] then None
    else if k in Keys(lists[0], KeyOf) then Lookup(lists[0], k)
    else FirstFound(lists[1..], k)
  }

  // The session's list, then every AIF's own and its device's, in pool order.
  function GkvLists(sess: Meta, pool: seq<Interface>): seq<seq<KeyValue>> {
    if pool == [] then [sess.gkv]
    else GkvLists(sess, pool[..|pool| - 1]) + [pool[|pool| - 1].aif.gkv, pool[|pool| - 1].dev.gkv]
  }

  function CkvLists(sess: Meta, pool: seq<Interface>): seq<seq<KeyValue>> {
    if pool == [] then [sess.ckv]
    else CkvLists(sess, pool[..|pool| - 1]) + [pool[|pool| - 1].aif.ckv, pool[|pool| - 1].dev.ckv]
  }

  lemma {:induction false} LookupSome(kvs: seq<KeyValue>, k: u32)
    ensures Lookup(kvs, k).Some? <==> k in Keys(kvs, KeyOf)
  {
    if kvs != [] {
      LookupSome(kvs[1..], k);
      KeysAppend([kvs[0]], kvs[1..], KeyOf);
      assert kvs == [kvs[0]] + kvs[1..];
      assert kvs[0] in [kvs[0]];
      assert Keys([kvs[0]], KeyOf) == {kvs[0].key};
    }
  }

  lemma {:induction false} FoundAppend(a: seq<seq<KeyValue>>, b: seq<seq<KeyValue>>, k: u32)
    ensures FirstFound(a + b, k) == if FirstFound(a, k).Some? then FirstFound(a, k) else FirstFound(b, k)
  {
    if a == [] {
      assert a + b == b;
    } else {
      assert (a + b)[0] == a[0] && (a + b)[1..] == a[1..] + b;
      FoundAppend(a[1..], b, k);
      LookupSome(a[0], k);
    }
  }

  lemma FoundTwo(x: seq<KeyValue>, y: seq<KeyValue>, k: u32)
    ensures FirstFound([x, y], k) == Lookup(x + y, k)
  {
    LookupAppend(x, y, k);
    LookupSome(y, k);
    assert [x, y][1..] == [y] && [y][1..] == [];
    assert FirstFound([y], k) == Lookup(y, k);
  }

  // One list longer.
  lemma FoundNext(all: seq<KeyValue>, lists: seq<seq<KeyValue>>, x: seq<KeyValue>, y: seq<KeyValue>, k: u32)
    requires Lookup(all, k) == FirstFound(lists, k)
    ensures Lookup(all + (x + y), k) == FirstFound(lists + [x, y], k)
  {
    LookupAppend(all, x + y, k);
    LookupSome(all, k);
    FoundAppend(lists, [x, y], k);
    FoundTwo(x, y, k);
  }

  lemma {:induction false} SourcesFound(sess: Meta, pool: seq<Interface>, k: u32)
    ensures Lookup(Gkvs([Some(sess)] + PoolSources(pool)), k) == FirstFound(GkvLists(sess, pool), k)
    ensures Lookup(Ckvs([Some(sess)] + PoolSources(pool)), k) == FirstFound(CkvLists(sess, pool), k)
    decreases |pool|
  {
    if pool == [] {
      assert [Some(sess)] + PoolSources(pool) == [Some(sess)];
      SourcesOne(Some(sess));
      LookupSome(sess.gkv, k);
      LookupSome(sess.ckv, k);
    } else {
      var before, x := pool[..|pool| - 1], pool[|pool| - 1];
      var all := [Some(sess)] + PoolSources(before);
      SourcesFound(sess, before, k);
      SourcesAppend(all, x);
      assert [Some(sess)] + PoolSources(pool) == all + [Some(x.aif), Some(x.dev)];
      FoundNext(Gkvs(all), GkvLists(sess, before), x.aif.gkv, x.dev.gkv, k);
      FoundNext(Ckvs(all), CkvLists(sess, before), x.aif.ckv, x.dev.ckv, k);
    }
  }

  /**
    The first source that has a key decides its value, for graph and calibration keys: the session, then the
    AIFs in pool order, each before its device.
  */
  lemma MergePriority(sess: Meta, pool: seq<Interface>, k: u32)
    ensures var m := Merged([Some(sess)] + PoolSources(pool));
            && Lookup(m.gkv, k) == FirstFound(GkvLists(sess, pool), k)
            && Lookup(m.ckv, k) == FirstFound(CkvLists(sess, pool), k)
  {
    SourcesFound(sess, pool, k);
    LookupDedup(Gkvs([Some(sess)] + PoolSources(pool)), k);
    LookupDedup(Ckvs([Some(sess)] + PoolSources(pool)), k);
  }

  // ---- what is in a merge, from the sources alone ----------------------------------------------

  // The lists one after another.
  function Joined<T>(lists: seq<seq<T>>): seq<T> {
    if lists == [] then [] else lists[0] + Joined(lists[1..])
  }

  lemma {:induction false} JoinedSnoc<T>(lists: seq<seq<T>>, x: seq<T>)
    ensures Joined(lists + [x]) == Joined(lists) + x
  {
    if lists == [] {
      assert [x][1..] == [] && [] + x == x + [];
    } else {
      assert (lists + [x])[0] == lists[0] && (lists + [x])[1..] == lists[1..] + [x];
      JoinedSnoc(lists[1..], x);
    }
  }

  lemma {:induction false} JoinedContents<T>(lists: seq<seq<T>>, x: T)
    ensures x in Joined(lists) <==> exists k :: 0 <= k < |lists| && x in lists[k]
  {
    if lists != [] {
      JoinedContents(lists[1..], x);
      if x in Joined(lists[1..]) {
        var k :| 0 <= k < |lists[1..]| && x in lists[1..][k];
        assert x in lists[k + 1];
      }
      if exists k :: 0 <= k < |lists| && x in lists[k] {
        var k :| 0 <= k < |lists| && x in lists[k];
        assert k > 0 ==> x in lists[1..][k - 1];
      }
    }
  }

  function GkvOf(s: Option<Meta>): seq<KeyValue> { if s.Some? then s.value.gkv else [] }

  function CkvOf(s: Option<Meta>): seq<KeyValue> { if s.Some? then s.value.ckv else [] }

  function PropsOf(s: Option<Meta>): seq<u32> { if s.Some? then s.value.props else [] }

  function Parts<T>(sources: seq<Option<Meta>>, part: Option<Meta> -> seq<T>): (lists: seq<seq<T>>)
    ensures |lists| == |sources| && forall k :: 0 <= k < |sources| ==> lists[k] == part(sources[k])
  {
    seq(|sources|, k requires 0 <= k < |sources| => part(sources[k]))
  }

  lemma {:induction false} SourcesJoined(sources: seq<Option<Meta>>)
    ensures Gkvs(sources) == Joined(Parts(sources, GkvOf))
    ensures Ckvs(sources) == Joined(Parts(sources, CkvOf))
    ensures Props(sources) == Joined(Parts(sources, PropsOf))
    decreases |sources|
  {
    if sources != [] {
      var before, last := sources[..|sources| - 1], sources[|sources| - 1];
      SourcesJoined(before);
      assert Parts(sources, GkvOf) == Parts(before, GkvOf) + [GkvOf(last)];
      assert Parts(sources, CkvOf) == Parts(before, CkvOf) + [CkvOf(last)];
      assert Parts(sources, PropsOf) == Parts(before, PropsOf) + [PropsOf(last)];
      JoinedSnoc(Parts(before, GkvOf), GkvOf(last));
      JoinedSnoc(Parts(before, CkvOf), CkvOf(last));
      JoinedSnoc(Parts(before, PropsOf), PropsOf(last));
    }
  }

  /** kept: the first of every key in the given lists, in order; each key that occurs, once. */
  ghost predicate FirstsOf<T(!new)>(kept: seq<T>, lists: seq<seq<T>>, key: T -> u32) {
    && kept == FirstOccurrences(Joined(lists), key, |Joined(lists)|)
    && (forall i, j :: 0 <= i < j < |kept| ==> key(kept[i]) != key(kept[j]))
    && (forall x :: x in kept ==> exists k :: 0 <= k < |lists| && x in lists[k])
    && (forall k, x :: 0 <= k < |lists| && x in lists[k] ==> exists y :: y in kept && key(y) == key(x))
  }

  lemma DedupFirsts<T(!new)>(lists: seq<seq<T>>, key: T -> u32)
    ensures FirstsOf(Dedup(Joined(lists), key), lists, key)
  {
    var all := Joined(lists);
    DedupIsFirstOccurrences(all, key, |all|);
    assert all[..|all|] == all;
    DedupDistinct(all, key);
    DedupKeys(all, key);
    forall x | x in Dedup(all, key) ensures exists k :: 0 <= k < |lists| && x in lists[k] {
      JoinedContents(lists, x);
    }
    forall k, x | 0 <= k < |lists| && x in lists[k] ensures exists y :: y in Dedup(all, key) && key(y) == key(x) {
      JoinedContents(lists, x);
      assert key(x) in Keys(all, key);
      assert key(x) in Keys(Dedup(all, key), key);
    }
  }

  // The place of the last source there is, or -1.
  ghost predicate LastSource(sources: seq<Option<Meta>>, last: int) {
    && -1 <= last < |sources| && (last >= 0 ==> sources[last].Some?)
    && forall k :: last < k < |sources| ==> sources[k].None?
  }

  lemma {:induction false} PropIdOfLast(sources: seq<Option<Meta>>, last: int)
    requires LastSource(sources, last)
    ensures PropId(sources) == if last < 0 then 0 else sources[last].value.propId
    decreases |sources|
  {
    if |sources| > last + 1 {
      PropIdOfLast(sources[..|sources| - 1], last);
    }
  }

  /** A merge has the first of every key of all sources, in their order, and the property id of the last source. */
  lemma MergedLaw(sources: seq<Option<Meta>>, last: int)
    requires LastSource(sources, last)
    ensures var m := Merged(sources);
            && FirstsOf(m.gkv, Parts(sources, GkvOf), KeyOf)
            && FirstsOf(m.ckv, Parts(sources, CkvOf), KeyOf)
            && FirstsOf(m.props, Parts(sources, PropsOf), Itself)
            && m.propId == if last < 0 then 0 else sources[last].value.propId
  {
    SourcesJoined(sources);
    DedupFirsts(Parts(sources, GkvOf), KeyOf);
    DedupFirsts(Parts(sources, CkvOf), KeyOf);
    DedupFirsts(Parts(sources, PropsOf), Itself);
    PropIdOfLast(sources, last);
  }

  /** The merged property values are distinct, and just those of the sources that are there. */
  lemma MergedProps(sources: seq<Option<Meta>>)
    ensures var props := Merged(sources).props;
            && (forall i, j :: 0 <= i < j < |props| ==> props[i] != props[j])
            && forall x :: x in props <==> SomeHas(sources, x)
  {
    var all := Props(sources);
    SourcesJoined(sources);
    DedupDistinct(all, Itself);
    forall x ensures x in Dedup(all, Itself) <==> SomeHas(sources, x) {
      DedupValues(all, x);
      JoinedContents(Parts(sources, PropsOf), x);
      HasPart(sources, x);
    }
  }

  // A source that is there has this property value.
  ghost predicate SomeHas(sources: seq<Option<Meta>>, x: u32) {
    exists k :: 0 <= k < |sources| && sources[k].Some? && x in sources[k].value.props
  }

  lemma HasPart(sources: seq<Option<Meta>>, x: u32)
    ensures var lists := Parts(sources, PropsOf);
            SomeHas(sources, x) <==> exists k :: 0 <= k < |lists| && x in lists[k]
  {
    var lists := Parts(sources, PropsOf);
    if k :| 0 <= k < |lists| && x in lists[k] {
      assert sources[k].Some? && x in sources[k].value.props;
    }
    if k :| 0 <= k < |sources| && sources[k].Some? && x in sources[k].value.props {
      assert x in lists[k];
    }
  }

  lemma DedupValues(all: seq<u32>, x: u32)
    ensures x in Dedup(all, Itself) <==> x in all
  {
    DedupKeys(all, Itself);
    if x in all {
      assert Itself(x) in Keys(all, Itself);
      var y :| y in Dedup(all, Itself) && Itself(y) == x;
    }
  }

  // What the pool of a session contributes, in order: the session, then each AIF and its device.
  function PoolParts<T>(sess: Meta, pool: seq<Interface>, part: Meta -> seq<T>): (lists: seq<seq<T>>)
    ensures |lists| == 1 + 2 * |pool| && lists[0] == part(sess)
    ensures forall k :: 0 <= k < |pool| ==>
              lists[2 * k + 1] == part(pool[k].aif) && lists[2 * k + 2] == part(pool[k].dev)
  {
    if pool == [] then [part(sess)]
    else
      var n := |pool| - 1;
      PoolParts(sess, pool[..n], part) + [part(pool[n].aif), part(pool[n].dev)]
  }

  lemma {:induction false} PoolSourcesAt(pool: seq<Interface>)
    ensures |PoolSources(pool)| == 2 * |pool|
    ensures forall k :: 0 <= k < |pool| ==>
              PoolSources(pool)[2 * k] == Some(pool[k].aif) && PoolSources(pool)[2 * k + 1] == Some(pool[k].dev)
    decreases |pool|
  {
    if pool != [] {
      PoolSourcesAt(pool[..|pool| - 1]);
    }
  }

  lemma PoolPartsAre<T>(sess: Meta, pool: seq<Interface>, part: Meta -> seq<T>, of: Option<Meta> -> seq<T>)
    requires forall m :: of(Some(m)) == part(m)
    ensures PoolParts(sess, pool, part) == Parts([Some(sess)] + PoolSources(pool), of)
  {
    PoolSourcesAt(pool);
    var all := [Some(sess)] + PoolSources(pool);
    var lists := PoolParts(sess, pool, part);
    forall i | 0 <= i < |lists| ensures lists[i] == of(all[i]) {
      if i > 0 {
        var k := (i - 1) / 2;
        assert i == 2 * k + 1 || i == 2 * k + 2;
        assert all[i] == PoolSources(pool)[i - 1];
      }
    }
  }

  function GkvPart(m: Meta): seq<KeyValue> { m.gkv }

  function CkvPart(m: Meta): seq<KeyValue> { m.ckv }

  function PropsPart(m: Meta): seq<u32> { m.props }

  /** The same for a whole session: nothing without an AIF; the property id is the last AIF's device's. */
  lemma MergedPoolLaw(sess: Meta, pool: seq<Interface>)
    ensures if pool == [] then MergedPool(sess, pool) == None
            else
              && MergedPool(sess, pool).Some?
              && var m := MergedPool(sess, pool).value;
                 && FirstsOf(m.gkv, PoolParts(sess, pool, GkvPart), KeyOf)
                 && FirstsOf(m.ckv, PoolParts(sess, pool, CkvPart), KeyOf)
                 && FirstsOf(m.props, PoolParts(sess, pool, PropsPart), Itself)
                 && m.propId == pool[|pool| - 1].dev.propId
  {
    if pool != [] {
      var all := [Some(sess)] + PoolSources(pool);
      PoolSourcesAt(pool);
      assert all[|all| - 1] == Some(pool[|pool| - 1].dev) by {
        assert all[|all| - 1] == PoolSources(pool)[2 * (|pool| - 1) + 1];
      }
      MergedLaw(all, |all| - 1);
      PoolPartsAre(sess, pool, GkvPart, GkvOf);
      PoolPartsAre(sess, pool, CkvPart, CkvOf);
      PoolPartsAre(sess, pool, PropsPart, PropsOf);
    }
  }

  // ---- calibration -------------------------------------------------------------------------

  // The value of the last entry for this key, if there is one.
  function Calibrated(kv: KeyValue, cal: seq<KeyValue>): KeyValue {
    if cal == [] then kv
    else if cal[|cal| - 1].key == kv.key then kv.(value := cal[|cal| - 1].value)
    else Calibrated(kv, cal[..|cal| - 1])
  }

  function CalibratedAll(kvs: seq<KeyValue>, cal: seq<KeyValue>): (r: seq<KeyValue>)
    ensures |r| == |kvs| && forall k :: 0 <= k < |kvs| ==> r[k] == Calibrated(kvs[k], cal)
  {
    seq(|kvs|, k requires 0 <= k < |kvs| => Calibrated(kvs[k], cal))
  }

  /** metadata_update_cal, on the ckv array of one metadata object. */
  method UpdateCal(ckv: array<KeyValue>, num: nat, cal: seq<KeyValue>)
    requires num <= ckv.Length
    modifies ckv
    ensures ckv[..num] == CalibratedAll(old(ckv[..num]), cal)
    ensures ckv[num..] == old(ckv[num..])
  {
    ghost var before := ckv[..];
    for i := 0 to num
      invariant forall k :: 0 <= k < i ==> ckv[k] == Calibrated(before[k], cal)
      invariant forall k :: i <= k < ckv.Length ==> ckv[k] == before[k]
    {
      for j := 0 to |cal|
        invariant ckv[i] == Calibrated(before[i], cal[..j])
        invariant forall k :: 0 <= k < ckv.Length && k != i ==>
                    ckv[k] == if k < i then Calibrated(before[k], cal) else before[k]
      {
        assert cal[..j + 1][..j] == cal[..j];
        CalibratedKey(before[i], cal[..j]);
        if ckv[i].key == cal[j].key {
          ckv[i] := ckv[i].(value := cal[j].value);
        }
      }
      assert cal[..|cal|] == cal;
    }
  }

  lemma {:induction false} CalibratedKey(kv: KeyValue, cal: seq<KeyValue>)
    ensures Calibrated(kv, cal).key == kv.key
    decreases |cal|
  {
    if cal != [] {
      CalibratedKey(kv, cal[..|cal| - 1]);
    }
  }

  /** The update is decided by the last matching entry; without one the value stays. */
  lemma {:induction false} LastMatchWins(kv: KeyValue, cal: seq<KeyValue>, j: nat)
    requires j <= |cal| && forall l :: j <= l < |cal| ==> cal[l].key != kv.key
    requires j > 0 ==> cal[j - 1].key == kv.key
    ensures Calibrated(kv, cal) == if j == 0 then kv else kv.(value := cal[j - 1].value)
    decreases |cal|
  {
    if |cal| > j {
      LastMatchWins(kv, cal[..|cal| - 1], j);
    }
  }

  lemma {:induction false} CalibrateDrop(kvs: seq<KeyValue>, cal: seq<KeyValue>, ks: set<u32>)
    ensures Drop(CalibratedAll(kvs, cal), KeyOf, ks) == CalibratedAll(Drop(kvs, KeyOf, ks), cal)
  {
    if kvs != [] {
      assert CalibratedAll(kvs, cal)[1..] == CalibratedAll(kvs[1..], cal);
      CalibratedKey(kvs[0], cal);
      CalibrateDrop(kvs[1..], cal, ks);
    }
  }

  lemma {:induction false} CalibrateDedup(kvs: seq<KeyValue>, cal: seq<KeyValue>)
    ensures Dedup(CalibratedAll(kvs, cal), KeyOf) == CalibratedAll(Dedup(kvs, KeyOf), cal)
    decreases |kvs|
  {
    if kvs != [] {
      var rest := Drop(kvs[1..], KeyOf, {kvs[0].key});
      assert CalibratedAll(kvs, cal)[1..] == CalibratedAll(kvs[1..], cal);
      CalibratedKey(kvs[0], cal);
      CalibrateDrop(kvs[1..], cal, {kvs[0].key});
      CalibrateDedup(rest, cal);
    }
  }

  function WithCal(m: Meta, cal: seq<KeyValue>): Meta { m.(ckv := CalibratedAll(m.ckv, cal)) }

  /** Calibrating the three sources and then merging is the same as merging and then calibrating. */
  lemma CalibrateThenMerge(sess: Meta, aif: Meta, dev: Meta, cal: seq<KeyValue>)
    ensures Merged([Some(WithCal(sess, cal)), Some(WithCal(aif, cal)), Some(WithCal(dev, cal))]) ==
            WithCal(Merged([Some(sess), Some(aif), Some(dev)]), cal)
  {
    Sources3(sess, aif, dev);
    Sources3(WithCal(sess, cal), WithCal(aif, cal), WithCal(dev, cal));
    var all := sess.ckv + (aif.ckv + dev.ckv);
    assert CalibratedAll(all, cal) ==
           CalibratedAll(sess.ckv, cal) + (CalibratedAll(aif.ckv, cal) + CalibratedAll(dev.ckv, cal));
    CalibrateDedup(all, cal);
  }

  lemma Sources3(a: Meta, b: Meta, c: Meta)
    ensures Gkvs([Some(a), Some(b), Some(c)]) == a.gkv + (b.gkv + c.gkv)
    ensures Ckvs([Some(a), Some(b), Some(c)]) == a.ckv + (b.ckv + c.ckv)
    ensures Props([Some(a), Some(b), Some(c)]) == a.props + (b.props + c.props)
    ensures PropId([Some(a), Some(b), Some(c)]) == c.propId
  {
    SourcesOne(Some(a));
    SourcesAppend([Some(a)], Interface(b, c));
    assert [Some(a)] + [Some(b), Some(c)] == [Some(a), Some(b), Some(c)];
  }
}
