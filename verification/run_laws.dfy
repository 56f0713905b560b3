/** What any call of a client changes, session by session (service/src/agm.c, session_obj.c). */
module RunLaws {
  import opened Common
  import opened Devices
  import opened Cells
  import opened SessionSpec
  import opened SessionLaws
  import opened Worlds
  import opened Runs

  /** Session i has become s, on these devices; the others are as they were, but one may have been added. */
  ghost predicate OnlySession(w: World, w': World, i: nat, s: SessView, devs: seq<Counters>) {
    && i < |w'.sessions| && |w.sessions| <= |w'.sessions|
    && w'.devs == devs && w'.sessions[i] == s
    && forall t :: 0 <= t < |w.sessions| && t != i ==> w'.sessions[t] == w.sessions[t]
  }

  /** Sessions that are new: the one the call is about, and the playback session of a loopback. */
  ghost predicate NewSessions(w: World, w': World, call: Call, a: Answers) {
    forall t :: |w.sessions| <= t < |w'.sessions| ==>
      || (!OnHandle(call) && w'.sessions[t].id == call.id)
      || (MayLookUp(call) && a.playback == Some(w'.sessions[t].id) && w'.sessions[t] == NewSession(w'.sessions[t].id))
  }

  // What a call makes of session s.
  function Become(s: SessView, e: Effect): SessView { s.(state := e.state, pool := e.view.pool) }

  lemma WithSessionAdds(w: World, id: nat)
    ensures var w1 := WithSession(w, id);
            && w1.devs == w.devs && |w.sessions| <= |w1.sessions| <= |w.sessions| + 1
            && (forall t :: 0 <= t < |w.sessions| ==> w1.sessions[t] == w.sessions[t])
            && (|w1.sessions| > |w.sessions| ==> w1.sessions[|w.sessions|] == NewSession(id))
            && (|w1.sessions| > |w.sessions| <==> forall t :: 0 <= t < |w.sessions| ==> w.sessions[t].id != id)
  {}

  // Adding a session afterwards changes no other.
  lemma AddedAfter(w: World, u: World, call: Call, a: Answers, i: nat, s: SessView, devs: seq<Counters>)
    requires OnlySession(w, u, i, s, devs) && MayLookUp(call) && a.playback.Some?
    requires forall t :: |w.sessions| <= t < |u.sessions| ==> !OnHandle(call) && u.sessions[t].id == call.id
    ensures var w' := WithSession(u, a.playback.value);
            OnlySession(w, w', i, s, devs) && NewSessions(w, w', call, a)
  {
    WithSessionAdds(u, a.playback.value);
  }

  // The session's own part of a call on a handle.
  ghost predicate HandleDone(w: World, call: Call, a: Answers, r: Status, w': World)
    requires w.Shaped() && OnHandle(call) && call.h < |w.sessions|
  {
    var (s, v) := (w.sessions[call.h], w.ViewOf(call.h));
    match call
    case CSetConfig(h, dir) => r == Ok && OnlySession(w, w', h, s.(dir := dir), w.devs)
    case CPrepare(h) =>
      var e := PrepareEffect(v, s.state, s.dir, a);
      r == e.r && OnlySession(w, w', h, Become(s, e), e.view.devs)
    case CStart(h) =>
      var e := StartEffect(v, s.state, s.dir, a);
      r == e.r && OnlySession(w, w', h, Become(s, e), e.view.devs)
    case CStop(h) =>
      var e := StopEffect(v, s.state, s.dir, a);
      r == e.r && OnlySession(w, w', h, Become(s, e), e.view.devs)
    case CClose(h) =>
      var e := CloseEffect(v, s.state, a);
      r == e.r && OnlySession(w, w', h, Become(s, e), e.view.devs)
    case _ => true
  }

  /** A call on a handle changes the session of that handle, each call in its own way, and no other. */
  lemma HandleLaw(w: World, call: Call, a: Answers)
    requires w.Shaped() && OnHandle(call) && call.h < |w.sessions|
    ensures var d := Perform(w, call, a); NewSessions(w, d.w, call, a) && HandleDone(w, call, a, d.r, d.w)
  {
    var d := HandleAt(w, call, a);
    assert HandleDone(w, call, a, d.r, d.w);
    if a.playback.Some? && MayLookUp(call) {
      AddedAfter(w, d.w, call, a, call.h, d.w.sessions[call.h], d.w.devs);
    }
  }

  /** A handle that belongs to no session. */
  lemma NoHandleLaw(w: World, call: Call, a: Answers)
    requires w.Shaped() && OnHandle(call) && call.h >= |w.sessions|
    ensures var d := PerformCall(w, call, a); d.r == Invalid && d.w == w
  {}

  // The session of this id, or a new one, and its place.
  ghost predicate FoundSession(w: World, id: nat, i: nat, s: SessView) {
    && (if i < |w.sessions| then s == w.sessions[i] && s.id == id else i == |w.sessions| && s == NewSession(id))
    && forall t :: 0 <= t < |w.sessions| && t < i ==> w.sessions[t].id != id
  }

  ghost predicate IdDone(w: World, call: Call, a: Answers, i: nat, s: SessView, r: Status, w': World)
    requires !OnHandle(call) && View(s.pool, w.devs).Shape() && Fits(call, |w.devs|)
  {
    var v := View(s.pool, w.devs);
    match call
    case COpen(_) =>
      var e := OpenEffect(v, s.state, a).0;
      r == e.r && OnlySession(w, w', i, Become(s, e), e.view.devs)
    case CLink(_, aif, on) =>
      var e := LinkEffect(v, s.state, s.dir, aif, on, a).0;
      r == e.r && OnlySession(w, w', i, Become(s, e), e.view.devs)
    case CGetSession(_) => r == Ok && OnlySession(w, w', i, s, w.devs)
    case CGetAif(_, aif) =>
      var found := Has(s.pool, aif) || a.aifMemory;
      && r == (if found then Ok else NoMemory)
      && var pool := if found && !Has(s.pool, aif) then s.pool + [Aif(aif, AifClosed)] else s.pool;
         OnlySession(w, w', i, s.(pool := pool), w.devs)
    case _ => true
  }

  /** A call by id changes the session of that id, which may be new, and no other. */
  lemma IdLaw(w: World, call: Call, a: Answers) returns (i: nat, s: SessView)
    requires w.Shaped() && !OnHandle(call) && Fits(call, |w.devs|)
    ensures FoundSession(w, call.id, i, s) && View(s.pool, w.devs).Shape()
    ensures var d := PerformCall(w, call, a);
            if i == |w.sessions| && !a.sessionMemory then d.r == NoMemory && d.w == w
            else IdDone(w, call, a, i, s, d.r, d.w)
  {
    i := Find(w.sessions, call.id);
    s := if i < |w.sessions| then w.sessions[i] else NewSession(call.id);
    WithSessionShaped(w, call.id);
    WithSessionAdds(w, call.id);
    var w1 := WithSession(w, call.id);
    assert w1.sessions[i] == s && w1.ViewOf(i) == View(s.pool, w.devs) && w1.ViewOf(i).Shape();
    MovedNowhere(w1, i);
  }

  /** The lookup of a playback session changes nothing but to add that session if it is missing. */
  lemma PlaybackLaw(w: World, call: Call, a: Answers)
    requires w.Shaped() && Fits(call, |w.devs|)
    ensures var (d, p) := (PerformCall(w, call, a), Perform(w, call, a));
            && p.r == d.r && p.o == d.o && p.w.devs == d.w.devs
            && |d.w.sessions| <= |p.w.sessions| <= |d.w.sessions| + 1
            && (forall t :: 0 <= t < |d.w.sessions| ==> p.w.sessions[t] == d.w.sessions[t])
            && (|p.w.sessions| > |d.w.sessions| <==>
                  && MayLookUp(call) && a.playback.Some?
                  && forall t :: 0 <= t < |d.w.sessions| ==> d.w.sessions[t].id != a.playback.value)
            && (|p.w.sessions| > |d.w.sessions| ==> p.w.sessions[|d.w.sessions|] == NewSession(a.playback.value))
  {
    if a.playback.Some? {
      WithSessionAdds(PerformCall(w, call, a).w, a.playback.value);
    }
  }

  /** A start that succeeds: every attached AIF of that session is started, on a started device. */
  lemma StartRuns(w: World, h: nat, a: Answers)
    requires w.Inv() && w.Shaped() && h < |w.sessions| && Perform(w, CStart(h), a).r == Ok
    ensures var w' := Perform(w, CStart(h), a).w;
            var (s, s') := (w.sessions[h], w'.sessions[h]);
            && s'.state == SessStarted && |s'.pool| == |s.pool| && |w'.devs| == |w.devs|
            && forall k :: 0 <= k < |s.pool| && s.pool[k].state in ATTACHED ==>
                 && s.pool[k].id < |w.devs|
                 && s'.pool[k] == Aif(s.pool[k].id, AifStarted) && w'.devs[s.pool[k].id].state == DevStarted
                 && w'.devs[s.pool[k].id].start ==
                    w.devs[s.pool[k].id].start + (if s.pool[k].state == AifStarted then 0 else 1)
  {
    var s := w.sessions[h];
    HandleLaw(w, CStart(h), a);
    InvSound(w, h);
    StartStarts(w.ViewOf(h), s.state, s.dir, a);
  }

  // ---- what the books count ----------------------------------------------------------------

  // Session s has an AIF on device j in one of these states.
  predicate Uses(s: SessView, j: nat, states: set<AifState>) {
    exists k :: 0 <= k < |s.pool| && s.pool[k].id == j && s.pool[k].state in states
  }

  lemma {:induction false} CountIsUse(s: SessView, n: nat, j: nat)
    requires Unique(s.pool, n)
    ensures Count(s.pool, j, AifOpened) == Bit(Uses(s, j, ATTACHED))
    ensures Count(s.pool, j, AifStarted) == Bit(Uses(s, j, {AifStarted}))
  {
    CountIsState(s.pool, n, j, AifOpened);
    CountIsState(s.pool, n, j, AifStarted);
    if Has(s.pool, j) {
      var k :| 0 <= k < |s.pool| && s.pool[k].id == j;
      StateOfAt(s.pool, n, k);
    } else {
      StateOfAbsent(s.pool, j);
    }
  }

  lemma {:induction false} TotalIsUse(ss: seq<SessView>, n: nat, j: nat)
    requires forall i :: 0 <= i < |ss| ==> Unique(ss[i].pool, n)
    ensures Total(ss, j, AifOpened) == |set i: nat | i < |ss| && Uses(ss[i], j, ATTACHED)|
    ensures Total(ss, j, AifStarted) == |set i: nat | i < |ss| && Uses(ss[i], j, {AifStarted})|
    decreases |ss|
  {
    if ss != [] {
      var m := |ss| - 1;
      var before := ss[..m];
      TotalIsUse(before, n, j);
      CountIsUse(ss[m], n, j);
      assert ss == before + [ss[m]];
      TotalAppend(before, ss[m], j, AifOpened);
      TotalAppend(before, ss[m], j, AifStarted);
      UseSnoc(ss, j, ATTACHED);
      UseSnoc(ss, j, {AifStarted});
    }
  }

  lemma UseSnoc(ss: seq<SessView>, j: nat, states: set<AifState>)
    requires ss != []
    ensures var m := |ss| - 1;
            |set i: nat | i < |ss| && Uses(ss[i], j, states)| ==
            |set i: nat | i < |ss[..m]| && Uses(ss[..m][i], j, states)| + Bit(Uses(ss[m], j, states))
  {
    var m := |ss| - 1;
    var all := set i: nat | i < |ss| && Uses(ss[i], j, states);
    var before := set i: nat | i < |ss[..m]| && Uses(ss[..m][i], j, states);
    assert forall i: nat :: i < m ==> ss[..m][i] == ss[i];
    assert all == before + if Uses(ss[m], j, states) then {m} else {};
  }

  /** While the books balance, a device is open once for each session that has an AIF attached to it. */
  lemma BooksCount(w: World, j: nat)
    requires w.Inv() && j < |w.devs|
    ensures w.devs[j].open == |set i: nat | i < |w.sessions| && Uses(w.sessions[i], j, ATTACHED)|
    ensures w.devs[j].start >= |set i: nat | i < |w.sessions| && Uses(w.sessions[i], j, {AifStarted})|
    ensures w.devs[j].state == DevClosed <==> forall i :: 0 <= i < |w.sessions| ==> !Uses(w.sessions[i], j, ATTACHED)
  {
    assert w.DeviceInv(j);
    forall i | 0 <= i < |w.sessions| ensures Unique(w.sessions[i].pool, |w.devs|) {
      assert w.ViewOf(i).Shape();
    }
    TotalIsUse(w.sessions, |w.devs|, j);
    var users := set i: nat | i < |w.sessions| && Uses(w.sessions[i], j, ATTACHED);
    if i: nat :| i < |w.sessions| && Uses(w.sessions[i], j, ATTACHED) {
      assert i in users;
    } else {
      assert users == {};
    }
  }
}
