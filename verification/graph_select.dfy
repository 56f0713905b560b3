/** How graph_open picks the modules it configures from the tag information of a graph (service/src/graph.c). */
module GraphSelect {
  import opened Common
  import opened FirstKeys
  import opened AgmList

  datatype ModuleId = ModuleId(mid: u32, miid: u32)

  /** A tag and the modules that carry it. */
  datatype TagEntry = TagEntry(tag: u32, modules: seq<ModuleId>)

  /** A module the graph will configure; device: it came from the hardware end points. */
  datatype Picked = Picked(tag: u32, id: ModuleId, device: bool)

  // ---- the packed records: tag, count, then count pairs of words ------------------------------

  const HEADER := 2
  const PER_MODULE := 2

  function ModuleWords(modules: seq<ModuleId>): (w: seq<u32>)
    ensures |w| == PER_MODULE * |modules|
  {
    if modules == [] then [] else [modules[0].mid, modules[0].miid] + ModuleWords(modules[1..])
  }

  predicate Encodable(e: TagEntry) { |e.modules| < 0x1_0000_0000 }

  function EntryWords(e: TagEntry): seq<u32>
    requires Encodable(e)
  {
    [e.tag, |e.modules|] + ModuleWords(e.modules)
  }

  function Size(e: TagEntry): nat { HEADER + PER_MODULE * |e.modules| }

  function Words(entries: seq<TagEntry>): (w: seq<u32>)
    requires forall e :: e in entries ==> Encodable(e)
    ensures |w| == Offset(entries, |entries|)
  {
    if entries == [] then []
    else
      var before := entries[..|entries| - 1];
      OffsetOfPrefix(entries, |entries| - 1);
      Words(before) + EntryWords(entries[|entries| - 1])
  }

  // Where record i starts: the sizes of the records before it.
  function Offset(entries: seq<TagEntry>, i: nat): nat
    requires i <= |entries|
  {
    if i == 0 then 0 else Offset(entries, i - 1) + Size(entries[i - 1])
  }

  lemma {:induction false} OffsetOfPrefix(entries: seq<TagEntry>, i: nat)
    requires i <= |entries|
    ensures Offset(entries[..i], i) == Offset(entries, i)
    decreases i
  {
    if i > 0 {
      OffsetOfPrefix(entries, i - 1);
      OffsetOfPrefix(entries[..i], i - 1);
      assert entries[..i][..i - 1] == entries[..i - 1];
    }
  }

  // The words at p are those of e, as far as the walk looks at them.
  predicate RecordHeld(w: seq<u32>, p: nat, e: TagEntry) {
    && p + Size(e) <= |w|
    && w[p] == e.tag && w[p + 1] == |e.modules|
    && (e.modules != [] ==> w[p + HEADER] == e.modules[0].mid && w[p + HEADER + 1] == e.modules[0].miid)
  }

  lemma RecordLast(x: seq<u32>, e: TagEntry)
    requires Encodable(e)
    ensures RecordHeld(x + EntryWords(e), |x|, e)
  {
    var w := EntryWords(e);
    assert forall k :: 0 <= k < |w| ==> (x + w)[|x| + k] == w[k];
    if e.modules != [] {
      assert w[2] == e.modules[0].mid && w[3] == e.modules[0].miid;
      assert (x + w)[|x| + 2] == w[2] && (x + w)[|x| + 3] == w[3];
    }
    assert (x + w)[|x| + 0] == w[0] && (x + w)[|x| + 1] == w[1];
  }

  lemma RecordKept(x: seq<u32>, y: seq<u32>, p: nat, e: TagEntry)
    requires RecordHeld(x, p, e)
    ensures RecordHeld(x + y, p, e)
  {}

  /** What lies at the offset of record i is record i. */
  lemma {:induction false} RecordAt(entries: seq<TagEntry>, i: nat)
    requires i < |entries| && forall e :: e in entries ==> Encodable(e)
    ensures RecordHeld(Words(entries), Offset(entries, i), entries[i])
    decreases |entries|
  {
    var n := |entries| - 1;
    var before := entries[..n];
    OffsetOfPrefix(entries, n);
    assert Words(entries) == Words(before) + EntryWords(entries[n]);
    if i < n {
      RecordAt(before, i);
      OffsetOfPrefix(entries, i);
      OffsetOfPrefix(before, i);
      assert before[..i] == entries[..i];
      RecordKept(Words(before), EntryWords(entries[n]), Offset(entries, i), entries[i]);
    } else {
      RecordLast(Words(before), entries[n]);
    }
  }

  // ---- the selection -----------------------------------------------------------------------

  ghost function Seen(entries: seq<TagEntry>): set<u32> { set e | e in entries :: e.tag }

  // Entry i is the first of its tag, and a default module waits for that tag.
  ghost predicate Chooses(entries: seq<TagEntry>, i: nat, known: set<u32>)
    requires i < |entries|
  {
    entries[i].tag in known && entries[i].tag !in Seen(entries[..i])
  }

  // The ids at the end of record i's header: those of its first module or, without one, the next record's header.
  function FirstIds(entries: seq<TagEntry>, i: nat): ModuleId
    requires forall e :: e in entries ==> Encodable(e)
    requires i < |entries| && (i + 1 == |entries| ==> entries[i].modules != [])
  {
    if entries[i].modules != [] then entries[i].modules[0]
    else
      assert Encodable(entries[i + 1]);
      ModuleId(entries[i + 1].tag, |entries[i + 1].modules|)
  }

  // No ids are read behind the buffer.
  ghost predicate Readable(entries: seq<TagEntry>, known: set<u32>) {
    && (forall e :: e in entries ==> Encodable(e))
    && (entries != [] && entries[|entries| - 1].tag in known ==> entries[|entries| - 1].modules != [])
  }

  /** The selection: in tag order, one module for each known tag, with the ids of its first occurrence. */
  ghost function Selected(entries: seq<TagEntry>, n: nat, stream: set<u32>, hw: set<u32>): seq<Picked>
    requires n <= |entries| && Readable(entries, stream + hw)
  {
    if n == 0 then []
    else
      Selected(entries, n - 1, stream, hw) +
      if Chooses(entries, n - 1, stream + hw)
      then [Picked(entries[n - 1].tag, FirstIds(entries, n - 1), entries[n - 1].tag !in stream)]
      else []
  }

  // No chosen entry among the first n carries several modules.
  ghost predicate SingleUpTo(entries: seq<TagEntry>, n: nat, known: set<u32>)
    requires n <= |entries|
  {
    n == 0 ||
    (SingleUpTo(entries, n - 1, known) && (Chooses(entries, n - 1, known) ==> |entries[n - 1].modules| <= 1))
  }

  lemma {:induction false} SingleAt(entries: seq<TagEntry>, n: nat, i: nat, known: set<u32>)
    requires i < n <= |entries| && SingleUpTo(entries, n, known) && Chooses(entries, i, known)
    ensures |entries[i].modules| <= 1
    decreases n
  {
    if i < n - 1 {
      SingleAt(entries, n - 1, i, known);
    }
  }

  ghost function TagsOf(modules: seq<Picked>): set<u32> { set m | m in modules :: m.tag }

  /** A module is selected exactly when its tag occurs, and only once. */
  lemma {:induction false} SelectedTags(entries: seq<TagEntry>, n: nat, stream: set<u32>, hw: set<u32>)
    requires n <= |entries| && Readable(entries, stream + hw)
    ensures var r := Selected(entries, n, stream, hw);
            && TagsOf(r) == (stream + hw) * Seen(entries[..n])
            && forall i, j :: 0 <= i < j < |r| ==> r[i].tag != r[j].tag
    decreases n
  {
    if n > 0 {
      var before := Selected(entries, n - 1, stream, hw);
      SelectedTags(entries, n - 1, stream, hw);
      SeenStep(entries, n - 1);
      forall m | m in before ensures m.tag in Seen(entries[..n - 1]) {
        assert m.tag in TagsOf(before);
      }
      if Chooses(entries, n - 1, stream + hw) {
        var last := Picked(entries[n - 1].tag, FirstIds(entries, n - 1), entries[n - 1].tag !in stream);
        TagsSnoc(before, last);
      } else {
        assert before + [] == before;
      }
    } else {
      assert entries[..0] == [];
    }
  }

  /**
    Module k was picked for record at[k], in the order of the records: the first record of its tag, with the ids
    of that record's first module or, without one, the two words behind its header, which belong to the next.
  */
  ghost predicate PickedAt(modules: seq<Picked>, at: seq<nat>, entries: seq<TagEntry>, n: nat, hw: set<u32>) {
    && |at| == |modules| && n <= |entries|
    && (forall k, l :: 0 <= k < l < |at| ==> at[k] < at[l])
    && forall k :: 0 <= k < |at| ==>
         && at[k] < n
         && var (m, e) := (modules[k], entries[at[k]]);
            && m.tag == e.tag && (m.device <==> e.tag in hw)
            && (forall j :: 0 <= j < at[k] ==> entries[j].tag != e.tag)
            && if e.modules != [] then m.id.mid == e.modules[0].mid && m.id.miid == e.modules[0].miid
               else
                 && at[k] + 1 < |entries|
                 && m.id.mid == entries[at[k] + 1].tag && m.id.miid == |entries[at[k] + 1].modules|
  }

  /** Every module of the selection was picked like that. */
  lemma {:induction false} SelectedPicks(entries: seq<TagEntry>, n: nat, stream: set<u32>, hw: set<u32>)
      returns (at: seq<nat>)
    requires n <= |entries| && Readable(entries, stream + hw) && stream !! hw
    ensures PickedAt(Selected(entries, n, stream, hw), at, entries, n, hw)
    decreases n
  {
    if n == 0 {
      at := [];
    } else {
      at := SelectedPicks(entries, n - 1, stream, hw);
      var i := n - 1;
      var before := Selected(entries, i, stream, hw);
      if Chooses(entries, i, stream + hw) {
        var last := Picked(entries[i].tag, FirstIds(entries, i), entries[i].tag !in stream);
        PickedOne(entries, i, stream, hw);
        PickedSnoc(before, at, entries, i, hw, last);
        at := at + [i];
      } else {
        assert before + [] == before;
      }
    }
  }

  lemma PickedOne(entries: seq<TagEntry>, i: nat, stream: set<u32>, hw: set<u32>)
    requires i < |entries| && Readable(entries, stream + hw) && stream !! hw && Chooses(entries, i, stream + hw)
    ensures var last := Picked(entries[i].tag, FirstIds(entries, i), entries[i].tag !in stream);
            PickedAt([last], [i], entries, i + 1, hw)
  {
    FirstOfTag(entries, i);
  }

  lemma PickedSnoc(modules: seq<Picked>, at: seq<nat>, entries: seq<TagEntry>, i: nat, hw: set<u32>, last: Picked)
    requires PickedAt(modules, at, entries, i, hw) && i < |entries|
    requires PickedAt([last], [i], entries, i + 1, hw)
    ensures PickedAt(modules + [last], at + [i], entries, i + 1, hw)
  {
    forall k | 0 <= k < |at + [i]|
      ensures (at + [i])[k] == (if k < |at| then at[k] else [i][k - |at|])
      ensures (modules + [last])[k] == (if k < |at| then modules[k] else [last][k - |at|])
    {}
  }

  lemma FirstOfTag(entries: seq<TagEntry>, i: nat)
    requires i < |entries| && entries[i].tag !in Seen(entries[..i])
    ensures forall j :: 0 <= j < i ==> entries[j].tag != entries[i].tag
  {
    forall j | 0 <= j < i ensures entries[j].tag != entries[i].tag {
      assert entries[..i][j] == entries[j] && entries[j] in entries[..i];
    }
  }

  predicate FirstOfItsTag(entries: seq<TagEntry>, i: nat)
    requires i < |entries|
  {
    forall j :: 0 <= j < i ==> entries[j].tag != entries[i].tag
  }

  /** The walk goes on exactly while no first record of a default module's tag lists several modules. */
  lemma {:induction false} SingleExactly(entries: seq<TagEntry>, n: nat, known: set<u32>)
    requires n <= |entries|
    ensures SingleUpTo(entries, n, known) <==>
            forall i :: 0 <= i < n && entries[i].tag in known && FirstOfItsTag(entries, i) ==> |entries[i].modules| <= 1
    decreases n
  {
    if n > 0 {
      SingleExactly(entries, n - 1, known);
      ChoosesExactly(entries, n - 1, known);
    }
  }

  lemma ChoosesExactly(entries: seq<TagEntry>, i: nat, known: set<u32>)
    requires i < |entries|
    ensures Chooses(entries, i, known) <==>
            entries[i].tag in known && FirstOfItsTag(entries, i)
  {
    if entries[i].tag !in Seen(entries[..i]) {
      FirstOfTag(entries, i);
    } else {
      var e :| e in entries[..i] && e.tag == entries[i].tag;
    }
  }

  lemma TagsSnoc(modules: seq<Picked>, last: Picked)
    ensures TagsOf(modules + [last]) == TagsOf(modules) + {last.tag}
  {
    assert last in modules + [last];
    assert forall m :: m in modules ==> m in modules + [last];
  }

  ghost function Tags(s: seq<ListNode<u32>>): set<u32> {
    set n | n in s && n.item.Some? :: n.item.value
  }

  // Every node carries the tag of a default module, all different.
  ghost predicate Candidates(s: seq<ListNode<u32>>) {
    && (forall i :: 0 <= i < |s| ==> s[i].item.Some?)
    && (forall i, j :: 0 <= i < j < |s| ==> s[i].item != s[j].item)
  }

  ghost function Nodes(s: seq<ListNode<u32>>): set<ListNode<u32>> { set n | n in s }

  /** add_to_list: a node for every default module, in their order, until an allocation fails. */
  method AddToList(tags: seq<u32>, head: ListNode<u32>) returns (ok: bool, ghost s: seq<ListNode<u32>>)
    requires Ring(head, [])
    modifies head
    ensures Ring(head, s) && forall x :: x in s ==> fresh(x)
    ensures |s| <= |tags| && (ok <==> |s| == |tags|)
    ensures forall k :: 0 <= k < |s| ==> s[k].item == Some(tags[k])
    ensures ok && (forall i, j :: 0 <= i < j < |tags| ==> tags[i] != tags[j]) ==>
              Candidates(s) && Tags(s) == set t | t in tags
  {
    s := [];
    var count := 0;
    while count < |tags|
      invariant 0 <= count == |s| <= |tags| && Ring(head, s)
      invariant forall x :: x in s ==> fresh(x)
      invariant forall k :: 0 <= k < |s| ==> s[k].item == Some(tags[k])
    {
      var memory: bool := *;
      if !memory {
        return false, s;
      }
      var item := new ListNode(Some(tags[count]));
      RingLinks(head, s);
      assert s != [] ==> head.prev in s;
      ListAddTail(head, item, s);
      s := s + [item];
      count := count + 1;
    }
    ok := true;
    TagsOfAll(s, tags);
  }

  lemma TagsOfAll(s: seq<ListNode<u32>>, tags: seq<u32>)
    requires |s| == |tags| && forall k :: 0 <= k < |s| ==> s[k].item == Some(tags[k])
    ensures Tags(s) == set t | t in tags
  {
    forall t | t in tags ensures t in Tags(s) {
      var k :| 0 <= k < |tags| && tags[k] == t;
      assert s[k] in s && s[k].item.value == t;
    }
    forall t | t in Tags(s) ensures t in tags {
      var k :| 0 <= k < |s| && s[k].item == Some(t);
    }
  }

  datatype Match = NoMatch | TooMany | Added(id: ModuleId)

  method FindTag(head: ListNode<u32>, tag: u32, ghost s: seq<ListNode<u32>>)
      returns (found: bool, node: ListNode<u32>, ghost k: nat)
    requires Ring(head, s) && Candidates(s)
    ensures found ==> k < |s| && node == s[k] && node.item == Some(tag)
    ensures found <==> tag in Tags(s)
  {
    RingLinks(head, s);
    node := head.next;
    k := 0;
    while node != head
      invariant k <= |s| && node == if k < |s| then s[k] else head
      invariant forall i :: 0 <= i < k ==> s[i].item != Some(tag)
      decreases |s| - k
    {
      if node.item == Some(tag) {
        found := true;
        assert s[k] in s;
        return;
      }
      node := node.next;
      k := k + 1;
    }
    found := false;
  }

  lemma WithoutTag(s: seq<ListNode<u32>>, k: nat)
    requires Candidates(s) && k < |s|
    ensures var rest := s[..k] + s[k + 1..];
            && Candidates(rest) && Tags(rest) == Tags(s) - {s[k].item.value}
            && Nodes(rest) <= Nodes(s)
  {
    var rest := s[..k] + s[k + 1..];
    assert forall i :: 0 <= i < |rest| ==> rest[i] == if i < k then s[i] else s[i + 1];
    forall n | n in rest ensures n in s {
      var i :| 0 <= i < |rest| && rest[i] == n;
    }
    forall t | t in Tags(s) && t != s[k].item.value ensures t in Tags(rest) {
      var i :| 0 <= i < |s| && s[i].item == Some(t);
      assert rest[if i < k then i else i - 1] == s[i];
    }
    forall t | t in Tags(rest) ensures t in Tags(s) && t != s[k].item.value {
      var i :| 0 <= i < |rest| && rest[i].item == Some(t);
    }
  }

  /** One of the two inner loops: look for the tag among the candidates and use one up. */
  method MatchTag(head: ListNode<u32>, tag: u32, numModules: u32, first: ModuleId, ghost s: seq<ListNode<u32>>)
      returns (r: Match, ghost rest: seq<ListNode<u32>>)
    requires Ring(head, s) && Candidates(s)
    modifies head, Nodes(s)
    ensures r == if tag !in Tags(s) then NoMatch else if numModules > 1 then TooMany else Added(first)
    ensures Ring(head, rest) && Candidates(rest) && Nodes(rest) <= Nodes(s)
    ensures Tags(rest) == if r.Added? then Tags(s) - {tag} else Tags(s)
  {
    rest := s;
    var found, node;
    ghost var k;
    found, node, k := FindTag(head, tag, s);
    if !found {
      return NoMatch, s;
    }
    if numModules > 1 {
      return TooMany, s;
    }
    RingNeighbours(head, s, k);
    WithoutTag(s, k);
    ListRemove(node, head, s, k);
    rest := s[..k] + s[k + 1..];
    r := Added(first);
  }

  lemma SeenStep(entries: seq<TagEntry>, i: nat)
    requires i < |entries|
    ensures Seen(entries[..i + 1]) == Seen(entries[..i]) + {entries[i].tag}
  {
    assert entries[..i + 1] == entries[..i] + [entries[i]];
    assert entries[i] in entries[..i + 1];
    assert forall e :: e in entries[..i] ==> e in entries[..i + 1];
  }

  // Two lists that share no node.
  ghost predicate Apart(head: ListNode<u32>, s: seq<ListNode<u32>>, head': ListNode<u32>, s': seq<ListNode<u32>>) {
    ({head} + Nodes(s)) !! ({head'} + Nodes(s'))
  }

  /** Both inner loops: the stream modules first, then the hardware end points. */
  method MatchEither(streamList: ListNode<u32>, hwList: ListNode<u32>, tag: u32, numModules: u32, first: ModuleId,
                     ghost ss: seq<ListNode<u32>>, ghost hs: seq<ListNode<u32>>)
      returns (r: Match, device: bool, ghost rs: seq<ListNode<u32>>, ghost rh: seq<ListNode<u32>>)
    requires Ring(streamList, ss) && Candidates(ss) && Ring(hwList, hs) && Candidates(hs)
    requires Apart(streamList, ss, hwList, hs)
    modifies streamList, Nodes(ss), hwList, Nodes(hs)
    ensures Ring(streamList, rs) && Candidates(rs) && Nodes(rs) <= Nodes(ss)
    ensures Ring(hwList, rh) && Candidates(rh) && Nodes(rh) <= Nodes(hs)
    ensures r == if tag !in Tags(ss) + Tags(hs) then NoMatch else if numModules > 1 then TooMany else Added(first)
    ensures device <==> tag !in Tags(ss)
    ensures Tags(rs) == if r.Added? then Tags(ss) - {tag} else Tags(ss)
    ensures Tags(rh) == if r.Added? && device then Tags(hs) - {tag} else Tags(hs)
  {
    assert forall x :: x in hs ==> x in Nodes(hs);
    assert forall x :: x in ss ==> x in Nodes(ss);
    rh := hs;
    r, rs := MatchTag(streamList, tag, numModules, first, ss);
    device := r.NoMatch?;
    if device {
      assert forall x :: x in rs ==> x in Nodes(rs);
      r, rh := MatchTag(hwList, tag, numModules, first, hs);
    }
  }

  // With the tags seen so far taken out of the candidates, a match is a choice.
  lemma TagStep(entries: seq<TagEntry>, i: nat, stream: set<u32>, hw: set<u32>, s: set<u32>, h: set<u32>)
    requires i < |entries| && stream !! hw
    requires s == stream - Seen(entries[..i]) && h == hw - Seen(entries[..i])
    ensures Chooses(entries, i, stream + hw) <==> entries[i].tag in s + h
    ensures entries[i].tag in s + h ==> (entries[i].tag in s <==> entries[i].tag in stream)
    ensures var seen := Seen(entries[..i + 1]);
            && stream - seen == s - {entries[i].tag} && hw - seen == h - {entries[i].tag}
    ensures entries[i].tag in s ==> entries[i].tag !in h
    ensures entries[i] in entries
  {
    SeenStep(entries, i);
  }

  // The candidates are those whose tag has not been seen; they are matched with record i.
  method MatchEntry(streamList: ListNode<u32>, hwList: ListNode<u32>, tag: u32, numModules: u32, first: ModuleId,
                    ghost entries: seq<TagEntry>, ghost i: nat, ghost stream: set<u32>, ghost hw: set<u32>,
                    ghost ss: seq<ListNode<u32>>, ghost hs: seq<ListNode<u32>>)
      returns (r: Match, device: bool, ghost rs: seq<ListNode<u32>>, ghost rh: seq<ListNode<u32>>)
    requires Ring(streamList, ss) && Candidates(ss) && Ring(hwList, hs) && Candidates(hs)
    requires Apart(streamList, ss, hwList, hs) && stream !! hw
    requires i < |entries| && tag == entries[i].tag
    requires Tags(ss) == stream - Seen(entries[..i]) && Tags(hs) == hw - Seen(entries[..i])
    modifies streamList, Nodes(ss), hwList, Nodes(hs)
    ensures Ring(streamList, rs) && Candidates(rs) && Nodes(rs) <= Nodes(ss)
    ensures Ring(hwList, rh) && Candidates(rh) && Nodes(rh) <= Nodes(hs)
    ensures r == if !Chooses(entries, i, stream + hw) then NoMatch else if numModules > 1 then TooMany else Added(first)
    ensures r.Added? ==> (device <==> tag !in stream)
    ensures !r.TooMany? ==> Tags(rs) == stream - Seen(entries[..i + 1]) && Tags(rh) == hw - Seen(entries[..i + 1])
  {
    TagStep(entries, i, stream, hw, Tags(ss), Tags(hs));
    r, device, rs, rh := MatchEither(streamList, hwList, tag, numModules, first, ss, hs);
  }

  method ReadRecord(buf: seq<u32>, cursor: nat, ghost entries: seq<TagEntry>, ghost i: nat)
      returns (tag: u32, numModules: u32, first: ModuleId)
    requires i < |entries| && (forall e :: e in entries ==> Encodable(e)) && buf == Words(entries)
    requires cursor == Offset(entries, i)
    ensures tag == entries[i].tag && numModules == |entries[i].modules|
    ensures numModules > 0 || i + 1 < |entries| ==> first == FirstIds(entries, i)
    ensures Offset(entries, i + 1) == cursor + HEADER + PER_MODULE * numModules
  {
    RecordAt(entries, i);
    if i + 1 < |entries| {
      RecordAt(entries, i + 1);
    }
    tag, numModules := buf[cursor], buf[cursor + 1];
    var ids := cursor + HEADER;
    first := if ids + 1 < |buf| then ModuleId(buf[ids], buf[ids + 1]) else ModuleId(0, 0);
  }

  // One round of the walk, at record i: what is picked, and where the next record starts.
  method SelectAt(buf: seq<u32>, cursor: nat, streamList: ListNode<u32>, hwList: ListNode<u32>,
                  ghost entries: seq<TagEntry>, ghost i: nat, ghost stream: set<u32>, ghost hw: set<u32>,
                  ghost ss: seq<ListNode<u32>>, ghost hs: seq<ListNode<u32>>)
      returns (picked: seq<Picked>, tooMany: bool, next: nat,
               ghost rs: seq<ListNode<u32>>, ghost rh: seq<ListNode<u32>>)
    requires Ring(streamList, ss) && Candidates(ss) && Ring(hwList, hs) && Candidates(hs)
    requires Apart(streamList, ss, hwList, hs) && stream !! hw
    requires i < |entries| && Readable(entries, stream + hw) && buf == Words(entries) && cursor == Offset(entries, i)
    requires Tags(ss) == stream - Seen(entries[..i]) && Tags(hs) == hw - Seen(entries[..i])
    modifies streamList, Nodes(ss), hwList, Nodes(hs)
    ensures Ring(streamList, rs) && Candidates(rs) && Nodes(rs) <= Nodes(ss)
    ensures Ring(hwList, rh) && Candidates(rh) && Nodes(rh) <= Nodes(hs)
    ensures tooMany <==> Chooses(entries, i, stream + hw) && |entries[i].modules| > 1
    ensures !tooMany ==>
              picked == if Chooses(entries, i, stream + hw)
                        then [Picked(entries[i].tag, FirstIds(entries, i), entries[i].tag !in stream)] else []
    ensures !tooMany ==> next == Offset(entries, i + 1)
    ensures !tooMany ==> Tags(rs) == stream - Seen(entries[..i + 1]) && Tags(rh) == hw - Seen(entries[..i + 1])
  {
    var tag, numModules, first := ReadRecord(buf, cursor, entries, i);
    var r, device;
    r, device, rs, rh := MatchEntry(streamList, hwList, tag, numModules, first, entries, i, stream, hw, ss, hs);
    picked := if r.Added? then [Picked(tag, r.id, device)] else [];
    tooMany := r.TooMany?;
    next := cursor + HEADER + PER_MODULE * numModules;
  }

  /**
    The walk of graph_open over the packed records. It gives up, oddly without an error, exactly if the first
    record of some default module's tag lists several modules; otherwise cursor ends at the end of the buffer.
  */
  method SelectModules(buf: seq<u32>, numTags: nat, streamList: ListNode<u32>, hwList: ListNode<u32>,
                       ghost entries: seq<TagEntry>, ghost ss: seq<ListNode<u32>>, ghost hs: seq<ListNode<u32>>)
      returns (modules: seq<Picked>, aborted: bool, cursor: nat, ghost n: nat, ghost at: seq<nat>)
    requires numTags == |entries| && Readable(entries, Tags(ss) + Tags(hs)) && buf == Words(entries)
    requires Ring(streamList, ss) && Candidates(ss) && Ring(hwList, hs) && Candidates(hs)
    requires Apart(streamList, ss, hwList, hs) && Tags(ss) !! Tags(hs)
    modifies streamList, Nodes(ss), hwList, Nodes(hs)
    ensures n <= |entries| && cursor == Offset(entries, n)
    ensures modules == Selected(entries, n, Tags(ss), Tags(hs))
    ensures PickedAt(modules, at, entries, n, Tags(hs))
    ensures aborted <==> n < |entries|
    ensures aborted ==> Chooses(entries, n, Tags(ss) + Tags(hs)) && |entries[n].modules| > 1
    ensures SingleUpTo(entries, n, Tags(ss) + Tags(hs))
    ensures aborted <==> !SingleUpTo(entries, |entries|, Tags(ss) + Tags(hs))
    ensures !aborted ==> cursor == |buf|
  {
    modules, cursor, aborted := [], 0, false;
    ghost var rs, rh := ss, hs;
    ghost var stream, hw := Tags(ss), Tags(hs);
    var i := 0;
    while i < numTags
      invariant 0 <= i <= numTags && cursor == Offset(entries, i)
      invariant modules == Selected(entries, i, stream, hw)
      invariant Ring(streamList, rs) && Candidates(rs) && Nodes(rs) <= Nodes(ss)
      invariant Ring(hwList, rh) && Candidates(rh) && Nodes(rh) <= Nodes(hs)
      invariant Tags(rs) == stream - Seen(entries[..i]) && Tags(rh) == hw - Seen(entries[..i])
      invariant SingleUpTo(entries, i, stream + hw)
    {
      var picked, tooMany, next;
      picked, tooMany, next, rs, rh := SelectAt(buf, cursor, streamList, hwList, entries, i, stream, hw, rs, rh);
      if tooMany {
        n := i;
        aborted := true;
        if SingleUpTo(entries, |entries|, stream + hw) {
          SingleAt(entries, |entries|, i, stream + hw);
        }
        at := SelectedPicks(entries, i, stream, hw);
        return;
      }
      modules, cursor := modules + picked, next;
      i := i + 1;
    }
    n := i;
    at := SelectedPicks(entries, i, stream, hw);
  }
}
