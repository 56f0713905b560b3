/** All sessions and all devices together, as values, and the books that every call must keep. */
module Worlds {
  import opened Common
  import opened Devices
  import opened Cells
  import opened SessionSpec

  datatype SessView = SessView(id: nat, dir: Direction, state: SessState, pool: seq<Aif>)

  // A session that has just been created.
  function NewSession(id: nat): SessView { SessView(id, Unset, SessClosed, []) }

  // The AIFs of a pool that point to device j and are in the given state or a later one.
  function Count(pool: seq<Aif>, j: nat, from: AifState): nat {
    if pool == [] then 0
    else Bit(pool[0].id == j && Rank(pool[0].state) >= Rank(from)) + Count(pool[1..], j, from)
  }

  function Total(sessions: seq<SessView>, j: nat, from: AifState): nat {
    if sessions == [] then 0
    else Count(sessions[0].pool, j, from) + Total(sessions[1..], j, from)
  }

  datatype World = World(sessions: seq<SessView>, devs: seq<Counters>) {

    ghost function ViewOf(i: nat): View
      requires i < |sessions|
    {
      View(sessions[i].pool, devs)
    }

    ghost predicate Shaped() { forall i :: 0 <= i < |sessions| ==> ViewOf(i).Shape() }

    /** Every device's counters account for the AIFs of all sessions, and every session is in phase. */
    ghost predicate Inv() {
      && (forall i, k :: 0 <= i < k < |sessions| ==> sessions[i].id != sessions[k].id)
      && (forall i :: 0 <= i < |sessions| ==> ViewOf(i).Shape() && Phase(ViewOf(i), sessions[i].state))
      && (forall j :: 0 <= j < |devs| ==> DeviceInv(j))
      && (forall i, j :: 0 <= i < |sessions| && 0 <= j < |devs| ==> PreparedInv(i, j))
    }

    ghost predicate DeviceInv(j: nat)
      requires j < |devs|
    {
      && devs[j].Consistent()
      && devs[j].open == Total(sessions, j, AifOpened)
      && devs[j].start >= Total(sessions, j, AifStarted)
    }

    ghost predicate PreparedInv(i: nat, j: nat)
      requires i < |sessions| && j < |devs|
    {
      Rank(StateOf(sessions[i].pool, j)) > Rank(AifOpened) ==> devs[j].prepare >= 1
    }
  }

  lemma {:induction false} CountIsState(pool: seq<Aif>, n: nat, j: nat, from: AifState)
    requires Unique(pool, n) && Rank(from) > Rank(AifClosed)
    ensures Count(pool, j, from) == Bit(Rank(StateOf(pool, j)) >= Rank(from))
  {
    if pool != [] {
      CountIsState(pool[1..], n, j, from);
      if pool[0].id == j {
        assert forall k :: 0 <= k < |pool[1..]| ==> pool[1..][k] == pool[k + 1];
        StateOfAbsent(pool[1..], j);
      }
    }
  }

  lemma {:induction false} TotalUpdate(ss: seq<SessView>, i: nat, s: SessView, j: nat, from: AifState)
    requires i < |ss|
    ensures Total(ss[i := s], j, from) == Total(ss, j, from) - Count(ss[i].pool, j, from) + Count(s.pool, j, from)
  {
    if i > 0 {
      assert ss[i := s][1..] == ss[1..][i - 1 := s];
      TotalUpdate(ss[1..], i - 1, s, j, from);
    }
  }

  lemma {:induction false} TotalAppend(ss: seq<SessView>, s: SessView, j: nat, from: AifState)
    ensures Total(ss + [s], j, from) == Total(ss, j, from) + Count(s.pool, j, from)
  {
    if ss != [] {
      assert (ss + [s])[1..] == ss[1..] + [s];
      TotalAppend(ss[1..], s, j, from);
    } else {
      assert ss + [s] == [s];
    }
  }

  lemma {:induction false} TotalAtLeast(ss: seq<SessView>, i: nat, j: nat, from: AifState)
    requires i < |ss|
    ensures Total(ss, j, from) >= Count(ss[i].pool, j, from)
  {
    if i > 0 {
      TotalAtLeast(ss[1..], i - 1, j, from);
    }
  }

  lemma {:induction false} TotalAtLeastTwo(ss: seq<SessView>, i: nat, k: nat, j: nat, from: AifState)
    requires i < k < |ss|
    ensures Total(ss, j, from) >= Count(ss[i].pool, j, from) + Count(ss[k].pool, j, from)
  {
    if i > 0 {
      TotalAtLeastTwo(ss[1..], i - 1, k - 1, j, from);
    } else {
      TotalAtLeast(ss[1..], k - 1, j, from);
    }
  }

  lemma {:induction false} MoreAttachedThanStarted(ss: seq<SessView>, j: nat)
    ensures Total(ss, j, AifStarted) <= Total(ss, j, AifOpened)
  {
    if ss != [] {
      CountMonotone(ss[0].pool, j);
      MoreAttachedThanStarted(ss[1..], j);
    }
  }

  lemma {:induction false} CountMonotone(pool: seq<Aif>, j: nat)
    ensures Count(pool, j, AifStarted) <= Count(pool, j, AifOpened)
  {
    if pool != [] {
      CountMonotone(pool[1..], j);
    }
  }

  // Device j as session i sees it.
  lemma CellSound(w: World, i: nat, j: nat)
    requires w.Inv() && i < |w.sessions| && j < |w.devs|
    ensures w.ViewOf(i).CellOf(j).Sound()
    ensures w.ViewOf(i).CellOf(j).Others() ==
            Total(w.sessions, j, AifOpened) - Count(w.sessions[i].pool, j, AifOpened)
  {
    assert w.DeviceInv(j) && w.PreparedInv(i, j);
    assert w.ViewOf(i).Shape();
    CountIsState(w.sessions[i].pool, |w.devs|, j, AifOpened);
    CountIsState(w.sessions[i].pool, |w.devs|, j, AifStarted);
    TotalAtLeast(w.sessions, i, j, AifOpened);
    TotalAtLeast(w.sessions, i, j, AifStarted);
  }

  lemma InvSound(w: World, i: nat)
    requires w.Inv() && i < |w.sessions|
    ensures w.ViewOf(i).Sound() && w.ViewOf(i).Shape() && Phase(w.ViewOf(i), w.sessions[i].state)
  {
    forall j | 0 <= j < |w.devs| ensures w.ViewOf(i).CellOf(j).Sound() {
      CellSound(w, i, j);
    }
  }

  /** Session i has gone from its part of w to s, and the devices to devs. */
  ghost function Moved(w: World, i: nat, s: SessView, devs: seq<Counters>): World
    requires i < |w.sessions|
  {
    World(w.sessions[i := s], devs)
  }

  lemma MovedDevice(w: World, i: nat, s: SessView, devs: seq<Counters>, j: nat)
    requires w.Inv() && i < |w.sessions| && |devs| == |w.devs| && j < |devs|
    requires View(s.pool, devs).Shape()
    requires Keeps(w.ViewOf(i).CellOf(j), View(s.pool, devs).CellOf(j))
    ensures Moved(w, i, s, devs).DeviceInv(j)
    ensures forall k :: 0 <= k < |w.sessions| ==> Moved(w, i, s, devs).PreparedInv(k, j)
  {
    var w' := Moved(w, i, s, devs);
    var c := w.ViewOf(i).CellOf(j);
    var d := View(s.pool, devs).CellOf(j);
    CellSound(w, i, j);
    assert w.DeviceInv(j) && w.ViewOf(i).Shape();
    CountIsState(w.sessions[i].pool, |devs|, j, AifOpened);
    CountIsState(w.sessions[i].pool, |devs|, j, AifStarted);
    CountIsState(s.pool, |devs|, j, AifOpened);
    CountIsState(s.pool, |devs|, j, AifStarted);
    TotalUpdate(w.sessions, i, s, j, AifOpened);
    TotalUpdate(w.sessions, i, s, j, AifStarted);
    if c.Others() == 0 {
      NobodyElse(w.sessions, i, j);
    }
    forall k | 0 <= k < |w.sessions| ensures w'.PreparedInv(k, j) {
      assert w.PreparedInv(k, j);
      if k == i {
        assert w'.sessions[k].pool == s.pool && d.Sound();
      } else if Rank(StateOf(w.sessions[k].pool, j)) > Rank(AifOpened) {
        assert w.ViewOf(k).Shape();
        CountIsState(w.sessions[k].pool, |devs|, j, AifOpened);
        TotalAtLeastTwo(w.sessions, if i < k then i else k, if i < k then k else i, j, AifOpened);
        assert c.Others() >= 1 && w'.sessions[k] == w.sessions[k];
      }
    }
  }

  // With no attachment but session i's, no other session has started the device either.
  lemma {:induction false} NobodyElse(ss: seq<SessView>, i: nat, j: nat)
    requires i < |ss| && Total(ss, j, AifOpened) == Count(ss[i].pool, j, AifOpened)
    ensures Total(ss, j, AifStarted) == Count(ss[i].pool, j, AifStarted)
  {
    if i == 0 {
      MoreAttachedThanStarted(ss[1..], j);
    } else {
      TotalAtLeast(ss[1..], i - 1, j, AifOpened);
      CountMonotone(ss[0].pool, j);
      NobodyElse(ss[1..], i - 1, j);
    }
  }

  /** A session call that keeps its own books keeps everybody's. */
  lemma MoveKeepsInv(w: World, i: nat, s: SessView, devs: seq<Counters>)
    requires w.Inv() && i < |w.sessions| && s.id == w.sessions[i].id
    requires View(s.pool, devs).Shape() && Phase(View(s.pool, devs), s.state)
    requires AllKeep(w.ViewOf(i), View(s.pool, devs))
    ensures Moved(w, i, s, devs).Inv()
  {
    var w' := Moved(w, i, s, devs);
    forall j | 0 <= j < |devs| ensures w'.DeviceInv(j) {
      assert Keeps(w.ViewOf(i).CellOf(j), View(s.pool, devs).CellOf(j));
      MovedDevice(w, i, s, devs, j);
    }
    forall k, j | 0 <= k < |w'.sessions| && 0 <= j < |devs| ensures w'.PreparedInv(k, j) {
      assert Keeps(w.ViewOf(i).CellOf(j), View(s.pool, devs).CellOf(j));
      MovedDevice(w, i, s, devs, j);
    }
    forall k | 0 <= k < |w'.sessions|
      ensures w'.ViewOf(k).Shape() && Phase(w'.ViewOf(k), w'.sessions[k].state)
    {
      assert w.ViewOf(k).Shape() && Phase(w.ViewOf(k), w.sessions[k].state);
    }
  }

  /** A session call that loses or gains an attachment, or falls out of phase, breaks the books. */
  lemma MoveBreaksInv(w: World, i: nat, s: SessView, devs: seq<Counters>)
    requires w.Inv() && i < |w.sessions|
    requires View(s.pool, devs).Shape() && |devs| == |w.devs|
    requires !(Balanced(w.ViewOf(i), View(s.pool, devs)) && Phase(View(s.pool, devs), s.state))
    ensures !Moved(w, i, s, devs).Inv()
  {
    var w' := Moved(w, i, s, devs);
    if w'.Inv() {
      assert w'.ViewOf(i) == View(s.pool, devs) && Phase(w'.ViewOf(i), w'.sessions[i].state);
      var j :| 0 <= j < |devs| && View(s.pool, devs).CellOf(j).Others() != w.ViewOf(i).CellOf(j).Others();
      CellSound(w, i, j);
      CellSound(w', i, j);
      TotalUpdate(w.sessions, i, s, j, AifOpened);
    }
  }

  /** Whatever session i does within its books, session t stays as ready to start as it was. */
  lemma MoveKeepsReady(w: World, i: nat, s: SessView, devs: seq<Counters>, t: nat)
    requires w.Inv() && i < |w.sessions| && t < |w.sessions| && t != i
    requires AllKeep(w.ViewOf(i), View(s.pool, devs))
    requires w.ViewOf(t).Ready()
    ensures Moved(w, i, s, devs).ViewOf(t).Ready()
  {
    forall j | 0 <= j < |devs| ensures Moved(w, i, s, devs).ViewOf(t).CellOf(j).Ready() {
      assert w.ViewOf(t).CellOf(j).Ready();
      assert Keeps(w.ViewOf(i).CellOf(j), View(s.pool, devs).CellOf(j));
      CellSound(w, i, j);
      assert w.ViewOf(t).Shape();
      CountIsState(w.sessions[t].pool, |devs|, j, AifOpened);
      TotalAtLeastTwo(w.sessions, if i < t then i else t, if i < t then t else i, j, AifOpened);
    }
  }

  lemma AddSession(w: World, id: nat)
    requires w.Inv() && forall i :: 0 <= i < |w.sessions| ==> w.sessions[i].id != id
    ensures World(w.sessions + [NewSession(id)], w.devs).Inv()
  {
    var s := NewSession(id);
    var w' := World(w.sessions + [s], w.devs);
    forall j | 0 <= j < |w.devs| ensures w'.DeviceInv(j) {
      assert w.DeviceInv(j);
      TotalAppend(w.sessions, s, j, AifOpened);
      TotalAppend(w.sessions, s, j, AifStarted);
    }
    forall i | 0 <= i < |w'.sessions|
      ensures w'.ViewOf(i).Shape() && Phase(w'.ViewOf(i), w'.sessions[i].state)
    {
      if i < |w.sessions| {
        assert w.ViewOf(i).Shape() && Phase(w.ViewOf(i), w.sessions[i].state);
      }
    }
    forall i, j | 0 <= i < |w'.sessions| && 0 <= j < |w.devs| ensures w'.PreparedInv(i, j) {
      if i < |w.sessions| {
        assert w.PreparedInv(i, j);
      } else {
        assert StateOf(w'.sessions[i].pool, j) == AifClosed;
      }
    }
  }

  /** While the books are kept, a connected AIF has an open device and a started AIF a started one. */
  lemma AttachedDeviceIsOpen(w: World, i: nat, k: nat)
    requires w.Inv() && i < |w.sessions| && k < |w.sessions[i].pool|
    ensures w.sessions[i].pool[k].id < |w.devs|
    ensures var a := w.sessions[i].pool[k];
            && (Attached(a.state) ==> w.devs[a.id].state != DevClosed && w.devs[a.id].handles == 1)
            && (a.state == AifStarted ==> w.devs[a.id].state == DevStarted)
  {
    InvSound(w, i);
    SoundAt(w.ViewOf(i), k);
  }

  /** Every session but one is as ready to start as before. */
  ghost predicate ReadyKept(w: World, w': World, but: int) {
    && |w'.sessions| >= |w.sessions| && |w'.devs| == |w.devs|
    && forall t :: 0 <= t < |w.sessions| && t != but && w.ViewOf(t).Ready() ==> w'.ViewOf(t).Ready()
  }

  ghost function MovedTo(w: World, i: nat, v: View, st: SessState): World
    requires i < |w.sessions|
  {
    Moved(w, i, SessView(w.sessions[i].id, w.sessions[i].dir, st, v.pool), v.devs)
  }

  lemma MovedNowhere(w: World, i: nat)
    requires i < |w.sessions|
    ensures MovedTo(w, i, w.ViewOf(i), w.sessions[i].state) == w
  {
    assert SessView(w.sessions[i].id, w.sessions[i].dir, w.sessions[i].state, w.sessions[i].pool) == w.sessions[i];
    assert w.sessions[i := w.sessions[i]] == w.sessions;
  }

  lemma CallMove(w: World, i: nat, v: View, st: SessState)
    requires w.Inv() && i < |w.sessions|
    requires v.Shape() && Phase(v, st) && AllKeep(w.ViewOf(i), v)
    ensures MovedTo(w, i, v, st).Inv() && ReadyKept(w, MovedTo(w, i, v, st), i)
  {
    var s := SessView(w.sessions[i].id, w.sessions[i].dir, st, v.pool);
    assert View(s.pool, v.devs) == v;
    MoveKeepsInv(w, i, s, v.devs);
    forall t | 0 <= t < |w.sessions| && t != i && w.ViewOf(t).Ready()
      ensures MovedTo(w, i, v, st).ViewOf(t).Ready()
    {
      MoveKeepsReady(w, i, s, v.devs, t);
    }
  }

  /** A harmless call keeps everybody's books and everybody's readiness. */
  lemma HarmlessMove(w: World, i: nat, v: View, st: SessState)
    requires w.Inv() && i < |w.sessions| && Harmless(w.ViewOf(i), v, st)
    ensures MovedTo(w, i, v, st).Inv() && ReadyKept(w, MovedTo(w, i, v, st), -1)
  {
    CallMove(w, i, v, st);
    assert MovedTo(w, i, v, st).ViewOf(i) == v;
  }
}
