/**
  What any call of a client does to all sessions and devices, as a function of the call and of what the
  outside answers, and what that means for whole runs (service/src/agm.c, session_obj.c).
*/
module Runs {
  import opened Common
  import opened Devices
  import opened Cells
  import opened SessionSpec
  import opened Worlds

  /** A handle h is the place of its session. Looking up a session or an AIF creates it. */
  datatype Call =
    | COpen(id: nat)
    | CSetConfig(h: nat, dir: Direction)
    | CPrepare(h: nat)
    | CStart(h: nat)
    | CStop(h: nat)
    | CClose(h: nat)
    | CLink(id: nat, aif: nat, on: bool)
    | CGetSession(id: nat)
    | CGetAif(id: nat, aif: nat)

  /** What a call did beyond its return code; was: the state of the AIF before. */
  datatype Outcome =
    | Plain
    | OfOpen(open: OpenPath)
    | OfLink(link: LinkPath, was: AifState)

  /** False for just those outcomes after which the code's own books no longer balance. */
  predicate Clean(o: Outcome, r: Status) {
    match o
    case Plain => true
    case OfOpen(path) => CleanOpen(path, r)
    case OfLink(path, was) => Drift(path, was) == 0
  }

  datatype Done = Done(r: Status, o: Outcome, w: World)

  // The AIF of a call is that of a device.
  predicate Fits(call: Call, devices: nat) {
    match call
    case CLink(_, aif, _) => aif < devices
    case CGetAif(_, aif) => aif < devices
    case _ => true
  }

  // ---- one call ----------------------------------------------------------------------------

  ghost function Find(sessions: seq<SessView>, id: nat): (i: nat)
    ensures i <= |sessions| && (i < |sessions| ==> sessions[i].id == id)
    ensures forall k :: 0 <= k < i ==> sessions[k].id != id
  {
    if sessions == [] || sessions[0].id == id then 0 else 1 + Find(sessions[1..], id)
  }

  /** session_obj_get, with memory for a new session. */
  ghost function WithSession(w: World, id: nat): World {
    if Find(w.sessions, id) < |w.sessions| then w else World(w.sessions + [NewSession(id)], w.devs)
  }

  // The effect of a call on the session it is made on.
  ghost function OpenAt(w: World, i: nat, a: Answers): Done
    requires w.Shaped() && i < |w.sessions|
  {
    var (e, path) := OpenEffect(w.ViewOf(i), w.sessions[i].state, a);
    Done(e.r, OfOpen(path), MovedTo(w, i, e.view, e.state))
  }

  ghost function LinkAt(w: World, i: nat, aif: nat, on: bool, a: Answers): Done
    requires w.Shaped() && i < |w.sessions| && aif < |w.devs|
  {
    var (e, path) := LinkEffect(w.ViewOf(i), w.sessions[i].state, w.sessions[i].dir, aif, on, a);
    Done(e.r, OfLink(path, StateOf(w.sessions[i].pool, aif)), MovedTo(w, i, e.view, e.state))
  }

  ghost function GetAifAt(w: World, i: nat, aif: nat, a: Answers): Done
    requires w.Shaped() && i < |w.sessions|
  {
    if Has(w.sessions[i].pool, aif) || a.aifMemory
    then Done(Ok, Plain, MovedTo(w, i, WithAif(w.ViewOf(i), aif), w.sessions[i].state))
    else Done(NoMemory, Plain, w)
  }

  ghost function HandleEffect(call: Call, v: View, st: SessState, dir: Direction, a: Answers): (e: Effect)
    requires v.Shape()
    ensures SameSize(v, e.view)
  {
    match call
    case CPrepare(_) => PrepareEffect(v, st, dir, a)
    case CStart(_) => StartEffect(v, st, dir, a)
    case CStop(_) => StopEffect(v, st, dir, a)
    case CClose(_) => CloseEffect(v, st, a)
    case _ => Effect(Ok, v, st)
  }

  predicate OnHandle(call: Call) {
    call.CSetConfig? || call.CPrepare? || call.CStart? || call.CStop? || call.CClose?
  }

  ghost function HandleAt(w: World, call: Call, a: Answers): Done
    requires w.Shaped() && OnHandle(call)
  {
    if call.h >= |w.sessions| then Done(Invalid, Plain, w)
    else if call.CSetConfig? then
      Done(Ok, Plain, World(w.sessions[call.h := w.sessions[call.h].(dir := call.dir)], w.devs))
    else
      var s := w.sessions[call.h];
      var e := HandleEffect(call, w.ViewOf(call.h), s.state, s.dir, a);
      Done(e.r, Plain, MovedTo(w, call.h, e.view, e.state))
  }

  // A call that has found its session at place i.
  ghost function PerformAt(w: World, i: nat, call: Call, a: Answers): Done
    requires w.Shaped() && i < |w.sessions| && !OnHandle(call) && Fits(call, |w.devs|)
  {
    match call
    case COpen(_) => OpenAt(w, i, a)
    case CLink(_, aif, on) => LinkAt(w, i, aif, on, a)
    case CGetAif(_, aif) => GetAifAt(w, i, aif, a)
    case _ => Done(Ok, Plain, w)
  }

  ghost function PerformCall(w: World, call: Call, a: Answers): (d: Done)
    requires w.Shaped() && Fits(call, |w.devs|)
  {
    if OnHandle(call) then HandleAt(w, call, a)
    else
      var i := Find(w.sessions, call.id);
      WithSessionShaped(w, call.id);
      if i == |w.sessions| && !a.sessionMemory then Done(NoMemory, Plain, w)
      else PerformAt(WithSession(w, call.id), i, call, a)
  }

  lemma WithSessionShaped(w: World, id: nat)
    requires w.Shaped()
    ensures var w1 := WithSession(w, id);
            w1.Shaped() && w1.devs == w.devs && Find(w.sessions, id) < |w1.sessions|
  {
    var w1 := WithSession(w, id);
    forall i | 0 <= i < |w1.sessions| ensures w1.ViewOf(i).Shape() {
      if i < |w.sessions| {
        assert w.ViewOf(i).Shape();
      }
    }
  }

  // Calls that may set up a loopback, and look up its playback session for that.
  predicate MayLookUp(call: Call) { call.COpen? || call.CStart? || call.CLink? }

  /** The whole call: the lookup of a playback session may create that, too. */
  ghost function Perform(w: World, call: Call, a: Answers): Done
    requires w.Shaped() && Fits(call, |w.devs|)
  {
    var d := PerformCall(w, call, a);
    if a.playback.Some? && MayLookUp(call) then d.(w := WithSession(d.w, a.playback.value)) else d
  }

  // ---- what one call keeps -----------------------------------------------------------------

  /** No session goes away, and no device. */
  ghost predicate Grows(w: World, w': World) {
    && w'.Shaped() && |w'.devs| == |w.devs| && |w'.sessions| >= |w.sessions|
    && forall t :: 0 <= t < |w.sessions| ==> w'.sessions[t].id == w.sessions[t].id
  }

  lemma MovedGrows(w: World, i: nat, v: View, st: SessState)
    requires w.Shaped() && i < |w.sessions| && v.Shape() && |v.devs| == |w.devs|
    ensures Grows(w, MovedTo(w, i, v, st))
  {
    var w' := MovedTo(w, i, v, st);
    forall t | 0 <= t < |w'.sessions| ensures w'.ViewOf(t).Shape() {
      assert w.ViewOf(t).Shape();
    }
  }

  lemma HandleGrows(w: World, call: Call, a: Answers)
    requires w.Shaped() && OnHandle(call)
    ensures Grows(w, HandleAt(w, call, a).w)
  {
    if call.h < |w.sessions| {
      var s := w.sessions[call.h];
      assert w.ViewOf(call.h).Shape();
      var e := HandleEffect(call, w.ViewOf(call.h), s.state, s.dir, a);
      MovedGrows(w, call.h, e.view, e.state);
      if call.CSetConfig? {
        forall t | 0 <= t < |w.sessions| ensures HandleAt(w, call, a).w.ViewOf(t).Shape() {
          assert w.ViewOf(t).Shape();
        }
      }
    }
  }

  lemma CallGrows(w: World, call: Call, a: Answers)
    requires w.Shaped() && Fits(call, |w.devs|)
    ensures Grows(w, PerformCall(w, call, a).w)
  {
    if OnHandle(call) {
      HandleGrows(w, call, a);
    } else {
      var i := Find(w.sessions, call.id);
      var w1 := WithSession(w, call.id);
      WithSessionShaped(w, call.id);
      if i < |w1.sessions| {
        var v, s := w1.ViewOf(i), w1.sessions[i];
        assert v.Shape();
        match call
        case COpen(_) =>
          MovedGrows(w1, i, OpenEffect(v, s.state, a).0.view, OpenEffect(v, s.state, a).0.state);
        case CLink(_, aif, on) =>
          var e := LinkEffect(v, s.state, s.dir, aif, on, a).0;
          MovedGrows(w1, i, e.view, e.state);
        case CGetAif(_, aif) =>
          WithAifIndex(v, aif);
          MovedGrows(w1, i, WithAif(v, aif), s.state);
        case _ =>
      }
    }
  }

  // Calls by which the session with this id gets AIFs connected.
  predicate Connects(call: Call, id: nat) {
    match call
    case COpen(sid) => sid == id
    case CLink(sid, _, on) => on && sid == id
    case _ => false
  }

  /** Sessions on which the call connects nothing are as ready to start as before. */
  ghost predicate ReadyThrough(w: World, w': World, call: Call) {
    && Grows(w, w')
    && forall t :: 0 <= t < |w.sessions| && !Connects(call, w.sessions[t].id) ==>
         (w.ViewOf(t).Ready() ==> w'.ViewOf(t).Ready())
  }

  lemma OpenAtKeeps(w: World, i: nat, a: Answers)
    requires w.Inv() && i < |w.sessions|
    ensures var d := OpenAt(w, i, a);
            if Clean(d.o, d.r) then d.w.Inv() && ReadyKept(w, d.w, i) else !d.w.Inv()
  {
    var v, st := w.ViewOf(i), w.sessions[i].state;
    var (e, path) := OpenEffect(v, st, a);
    InvSound(w, i);
    OpenKeeps(v, st, a);
    if CleanOpen(path, e.r) {
      CallMove(w, i, e.view, e.state);
    } else {
      Broken(w, i, e.view, e.state);
    }
  }

  lemma Broken(w: World, i: nat, v: View, st: SessState)
    requires w.Inv() && i < |w.sessions| && v.Shape() && |v.devs| == |w.devs|
    requires !(Balanced(w.ViewOf(i), v) && Phase(v, st))
    ensures !MovedTo(w, i, v, st).Inv()
  {
    var s := w.sessions[i].(state := st, pool := v.pool);
    assert View(s.pool, v.devs) == v;
    MoveBreaksInv(w, i, s, v.devs);
  }

  lemma LinkAtKeeps(w: World, i: nat, aif: nat, on: bool, a: Answers)
    requires w.Inv() && i < |w.sessions| && aif < |w.devs|
    ensures var d := LinkAt(w, i, aif, on, a);
            if Clean(d.o, d.r) then d.w.Inv() && ReadyKept(w, d.w, if on then i else -1) else !d.w.Inv()
  {
    var v, s := w.ViewOf(i), w.sessions[i];
    var (e, path) := LinkEffect(v, s.state, s.dir, aif, on, a);
    InvSound(w, i);
    LinkKeeps(v, s.state, s.dir, aif, on, a);
    if Drift(path, StateOf(s.pool, aif)) == 0 {
      CallMove(w, i, e.view, e.state);
      if !on && v.Ready() {
        UnlinkReady(v, s.state, s.dir, aif, a);
      }
      assert MovedTo(w, i, e.view, e.state).ViewOf(i) == e.view;
    } else {
      Broken(w, i, e.view, e.state);
    }
  }

  lemma GetAifKeeps(w: World, i: nat, aif: nat, a: Answers)
    requires w.Inv() && i < |w.sessions| && aif < |w.devs|
    ensures var d := GetAifAt(w, i, aif, a); d.w.Inv() && ReadyKept(w, d.w, -1)
  {
    var v := w.ViewOf(i);
    InvSound(w, i);
    WithAifView(v, aif);
    forall j | v.Ready() && 0 <= j < |v.devs| ensures WithAif(v, aif).CellOf(j).Ready() {
      assert v.CellOf(j).Ready();
    }
    CallMove(w, i, WithAif(v, aif), w.sessions[i].state);
    assert MovedTo(w, i, WithAif(v, aif), w.sessions[i].state).ViewOf(i) == WithAif(v, aif);
  }

  lemma HandleKeeps(w: World, call: Call, a: Answers)
    requires w.Inv() && OnHandle(call)
    ensures var d := HandleAt(w, call, a); d.w.Inv() && ReadyKept(w, d.w, -1)
    ensures call.CPrepare? && HandleAt(w, call, a).r == Ok ==> HandleAt(w, call, a).w.ViewOf(call.h).Ready()
    ensures call.CStart? && call.h < |w.sessions| && w.ViewOf(call.h).Ready() ==>
              HandleAt(w, call, a).r != NotPrepared
  {
    if call.h < |w.sessions| {
      var v, s := w.ViewOf(call.h), w.sessions[call.h];
      InvSound(w, call.h);
      if call.CSetConfig? {
        ConfigKeeps(w, call.h, call.dir);
      } else {
        var e := HandleEffect(call, v, s.state, s.dir, a);
        HandleHarmless(call, v, s.state, s.dir, a);
        HarmlessMove(w, call.h, e.view, e.state);
        assert MovedTo(w, call.h, e.view, e.state).ViewOf(call.h) == e.view;
      }
    }
  }

  lemma HandleHarmless(call: Call, v: View, st: SessState, dir: Direction, a: Answers)
    requires v.Shape() && v.Sound() && Phase(v, st) && OnHandle(call)
    ensures var e := HandleEffect(call, v, st, dir, a);
            && Harmless(v, e.view, e.state)
            && (call.CPrepare? && e.r == Ok ==> e.view.Ready())
            && (call.CStart? && v.Ready() ==> e.r != NotPrepared)
  {
    match call
    case CPrepare(_) =>
      PrepareHarmless(v, st, dir, a);
      PrepareMakesReady(v, st, dir, a);
    case CStart(_) =>
      StartHarmless(v, st, dir, a);
    case CStop(_) =>
      StopHarmless(v, st, dir, a);
    case CClose(_) =>
      CloseHarmless(v, st, a);
    case _ =>
      SelfHarmless(v, st);
  }

  lemma ConfigKeeps(w: World, i: nat, dir: Direction)
    requires w.Inv() && i < |w.sessions|
    ensures var w' := World(w.sessions[i := w.sessions[i].(dir := dir)], w.devs);
            w'.Inv() && ReadyKept(w, w', -1)
  {
    InvSound(w, i);
    SelfHarmless(w.ViewOf(i), w.sessions[i].state);
    var s := w.sessions[i].(dir := dir);
    assert View(s.pool, w.devs) == w.ViewOf(i);
    MoveKeepsInv(w, i, s, w.devs);
    forall t | 0 <= t < |w.sessions| && w.ViewOf(t).Ready() ensures Moved(w, i, s, w.devs).ViewOf(t).Ready() {
      assert Moved(w, i, s, w.devs).ViewOf(t) == w.ViewOf(t);
    }
  }

  lemma WithSessionKeeps(w: World, id: nat)
    requires w.Inv()
    ensures var w1 := WithSession(w, id);
            w1.Inv() && |w1.sessions| >= |w.sessions| && w1.sessions[..|w.sessions|] == w.sessions && w1.devs == w.devs
  {
    if Find(w.sessions, id) == |w.sessions| {
      AddSession(w, id);
    } else {
      assert w.sessions[..|w.sessions|] == w.sessions;
    }
  }

  // The same as StepKeeps below, without the lookup.
  lemma CallKeeps(w: World, call: Call, a: Answers)
    requires w.Inv() && w.Shaped() && Fits(call, |w.devs|)
    ensures var d := PerformCall(w, call, a);
            && (d.w.Inv() <==> Clean(d.o, d.r))
            && (Clean(d.o, d.r) ==> ReadyThrough(w, d.w, call))
    ensures var d := PerformCall(w, call, a);
            && (call.CPrepare? && d.r == Ok ==> call.h < |w.sessions| && d.w.ViewOf(call.h).Ready())
            && (call.CStart? && call.h < |w.sessions| && w.ViewOf(call.h).Ready() ==> d.r != NotPrepared)
  {
    CallGrows(w, call, a);
    if OnHandle(call) {
      HandleKeeps(w, call, a);
    } else {
      LookupKeeps(w, call, a);
    }
  }

  lemma LookupKeeps(w: World, call: Call, a: Answers)
    requires w.Inv() && w.Shaped() && Fits(call, |w.devs|) && !OnHandle(call)
    ensures var d := PerformCall(w, call, a);
            && (d.w.Inv() <==> Clean(d.o, d.r))
            && (Clean(d.o, d.r) ==> ReadyThrough(w, d.w, call))
  {
    CallGrows(w, call, a);
    var i := Find(w.sessions, call.id);
    var w1 := WithSession(w, call.id);
    WithSessionShaped(w, call.id);
    WithSessionKeeps(w, call.id);
    assert forall t :: 0 <= t < |w.sessions| ==> w1.sessions[t] == w.sessions[t];
    var d := PerformCall(w, call, a);
    match call {
      case COpen(_) => OpenAtKeeps(w1, i, a);
      case CLink(_, aif, on) => LinkAtKeeps(w1, i, aif, on, a);
      case CGetAif(_, aif) => GetAifKeeps(w1, i, aif, a);
      case _ =>
    }
    forall t | Clean(d.o, d.r) && 0 <= t < |w.sessions| && !Connects(call, w.sessions[t].id) && w.ViewOf(t).Ready()
      ensures d.w.ViewOf(t).Ready()
    {
      assert w1.ViewOf(t) == w.ViewOf(t);
    }
  }

  // ---- and with the lookup of a playback session ---------------------------------------------

  lemma StepGrows(w: World, call: Call, a: Answers)
    requires w.Shaped() && Fits(call, |w.devs|)
    ensures Grows(w, Perform(w, call, a).w)
  {
    CallGrows(w, call, a);
    if a.playback.Some? {
      WithSessionShaped(PerformCall(w, call, a).w, a.playback.value);
    }
  }

  lemma SessionAdded(w: World, id: nat)
    requires w.Shaped()
    ensures WithSession(w, id).Inv() <==> w.Inv()
    ensures forall t :: 0 <= t < |w.sessions| ==> WithSession(w, id).sessions[t] == w.sessions[t]
  {
    var w1 := WithSession(w, id);
    if w.Inv() {
      WithSessionKeeps(w, id);
    }
    if w1.Inv() && w1 != w {
      WithoutLast(w, NewSession(id));
    }
  }

  lemma WithoutLast(w: World, s: SessView)
    requires World(w.sessions + [s], w.devs).Inv() && s.pool == []
    ensures w.Inv()
  {
    var w1 := World(w.sessions + [s], w.devs);
    assert forall t :: 0 <= t < |w.sessions| ==> w1.sessions[t] == w.sessions[t];
    forall j | 0 <= j < |w.devs| ensures w.DeviceInv(j) {
      assert w1.DeviceInv(j);
      TotalAppend(w.sessions, s, j, AifOpened);
      TotalAppend(w.sessions, s, j, AifStarted);
    }
    forall i | 0 <= i < |w.sessions| ensures w.ViewOf(i).Shape() && Phase(w.ViewOf(i), w.sessions[i].state) {
      assert w1.ViewOf(i).Shape() && Phase(w1.ViewOf(i), w1.sessions[i].state);
    }
    forall i, j | 0 <= i < |w.sessions| && 0 <= j < |w.devs| ensures w.PreparedInv(i, j) {
      assert w1.PreparedInv(i, j);
    }
  }

  /**
    One call, from balanced books: they balance afterwards exactly if the outcome is clean; and then nobody else
    has lost readiness, a successful prepare has made its session ready, and no ready session is refused.
  */
  lemma StepKeeps(w: World, call: Call, a: Answers)
    requires w.Inv() && w.Shaped() && Fits(call, |w.devs|)
    ensures var d := Perform(w, call, a);
            && (d.w.Inv() <==> Clean(d.o, d.r))
            && (Clean(d.o, d.r) ==> ReadyThrough(w, d.w, call))
    ensures var d := Perform(w, call, a);
            && (call.CPrepare? && d.r == Ok ==> call.h < |w.sessions| && d.w.ViewOf(call.h).Ready())
            && (call.CStart? && call.h < |w.sessions| && w.ViewOf(call.h).Ready() ==> d.r != NotPrepared)
  {
    CallKeeps(w, call, a);
    CallGrows(w, call, a);
    StepGrows(w, call, a);
    var d := PerformCall(w, call, a);
    if a.playback.Some? && MayLookUp(call) {
      SessionAdded(d.w, a.playback.value);
      ReadyAfter(w, d.w, WithSession(d.w, a.playback.value), call);
    }
  }

  lemma ReadyAfter(w: World, u: World, v: World, call: Call)
    requires Grows(w, u) && Grows(w, v) && |v.sessions| >= |u.sessions| && v.devs == u.devs
    requires forall t :: 0 <= t < |u.sessions| ==> v.sessions[t] == u.sessions[t]
    ensures ReadyThrough(w, u, call) ==> ReadyThrough(w, v, call)
  {
    forall t | 0 <= t < |w.sessions| ensures v.ViewOf(t) == u.ViewOf(t) {
      assert v.sessions[t] == u.sessions[t];
    }
  }

  /** No session yet, and all devices closed. */
  function NewWorld(devices: nat): World {
    World([], seq(devices, _ => Counters(DevClosed, 0, 0, 0, 0)))
  }

  lemma NewWorldBalances(devices: nat)
    ensures NewWorld(devices).Inv() && NewWorld(devices).Shaped()
  {
    forall j | 0 <= j < devices ensures NewWorld(devices).DeviceInv(j) {
      assert Total([], j, AifOpened) == 0 && Total([], j, AifStarted) == 0;
    }
  }

  // ---- whole runs --------------------------------------------------------------------------

  ghost predicate AllFit(calls: seq<Call>, devices: nat) {
    forall k :: 0 <= k < |calls| ==> Fits(calls[k], devices)
  }

  /** The world after the first k calls, of any kind, in any order, whatever the outside answers. */
  ghost function After(w: World, calls: seq<Call>, answers: seq<Answers>, k: nat): (w': World)
    requires w.Shaped() && k <= |calls| == |answers| && AllFit(calls, |w.devs|)
    ensures Grows(w, w')
  {
    if k == 0 then w
    else
      var before := After(w, calls, answers, k - 1);
      StepGrows(before, calls[k - 1], answers[k - 1]);
      Perform(before, calls[k - 1], answers[k - 1]).w
  }

  ghost function CallAt(w: World, calls: seq<Call>, answers: seq<Answers>, k: nat): Done
    requires w.Shaped() && k < |calls| == |answers| && AllFit(calls, |w.devs|)
  {
    Perform(After(w, calls, answers, k), calls[k], answers[k])
  }

  // Whether the books balance, before the first call and after each.
  ghost function Books(w: World, calls: seq<Call>, answers: seq<Answers>): (bs: seq<bool>)
    requires w.Shaped() && |calls| == |answers| && AllFit(calls, |w.devs|)
    ensures |bs| == |calls| + 1 && forall k :: 0 <= k <= |calls| ==> bs[k] == After(w, calls, answers, k).Inv()
  {
    seq(|calls| + 1, k requires 0 <= k <= |calls| => After(w, calls, answers, k).Inv())
  }

  // Whether each call's outcome is clean.
  ghost function Cleans(w: World, calls: seq<Call>, answers: seq<Answers>): (cs: seq<bool>)
    requires w.Shaped() && |calls| == |answers| && AllFit(calls, |w.devs|)
    ensures |cs| == |calls| && forall k :: 0 <= k < |calls| ==>
              cs[k] == Clean(CallAt(w, calls, answers, k).o, CallAt(w, calls, answers, k).r)
  {
    seq(|calls|, k requires 0 <= k < |calls| =>
      Clean(CallAt(w, calls, answers, k).o, CallAt(w, calls, answers, k).r))
  }

  ghost predicate InvUpTo(w: World, calls: seq<Call>, answers: seq<Answers>, n: nat)
    requires w.Shaped() && n <= |calls| == |answers| && AllFit(calls, |w.devs|)
  {
    forall k :: 0 <= k <= n ==> Books(w, calls, answers)[k]
  }

  ghost predicate CleanUpTo(w: World, calls: seq<Call>, answers: seq<Answers>, n: nat)
    requires w.Shaped() && n <= |calls| == |answers| && AllFit(calls, |w.devs|)
  {
    forall k :: 0 <= k < n ==> Cleans(w, calls, answers)[k]
  }

  lemma {:induction false} TrueAlong(bs: seq<bool>, cs: seq<bool>, n: nat)
    requires n <= |cs| < |bs| && bs[0]
    requires forall k :: 0 <= k < n && bs[k] ==> (bs[k + 1] <==> cs[k])
    ensures (forall k :: 0 <= k <= n ==> bs[k]) <==> (forall k :: 0 <= k < n ==> cs[k])
  {
    if n > 0 {
      TrueAlong(bs, cs, n - 1);
      assert bs[n - 1] ==> (bs[n - 1 + 1] <==> cs[n - 1]);
      if forall k :: 0 <= k <= n - 1 ==> bs[k] {
        assert bs[n - 1];
      } else {
        var k :| 0 <= k <= n - 1 && !bs[k];
        var l :| 0 <= l < n - 1 && !cs[l];
      }
    }
  }

  // StepKeeps for call k of a run.
  lemma RunStep(w: World, calls: seq<Call>, answers: seq<Answers>, k: nat)
    requires w.Shaped() && k < |calls| == |answers| && AllFit(calls, |w.devs|)
    requires After(w, calls, answers, k).Inv()
    ensures var u, u', d := After(w, calls, answers, k), After(w, calls, answers, k + 1), CallAt(w, calls, answers, k);
            && (u'.Inv() <==> Clean(d.o, d.r)) && (u'.Inv() ==> ReadyThrough(u, u', calls[k]))
            && (calls[k].CPrepare? && d.r == Ok ==> calls[k].h < |u.sessions| && u'.ViewOf(calls[k].h).Ready())
            && (calls[k].CStart? && calls[k].h < |u.sessions| && u.ViewOf(calls[k].h).Ready() ==> d.r != NotPrepared)
  {
    StepGrows(After(w, calls, answers, k), calls[k], answers[k]);
    StepKeeps(After(w, calls, answers, k), calls[k], answers[k]);
  }

  /** The books balance all along a run exactly if every outcome is clean. */
  lemma RunKeepsBooks(w: World, calls: seq<Call>, answers: seq<Answers>, n: nat)
    requires w.Inv() && w.Shaped() && n <= |calls| == |answers| && AllFit(calls, |w.devs|)
    ensures InvUpTo(w, calls, answers, n) <==> CleanUpTo(w, calls, answers, n)
  {
    var bs, cs := Books(w, calls, answers), Cleans(w, calls, answers);
    forall k | 0 <= k < n && bs[k] ensures bs[k + 1] <==> cs[k] {
      RunStep(w, calls, answers, k);
    }
    TrueAlong(bs, cs, n);
  }

  // Session t stays ready as long as it connects nothing.
  lemma {:induction false} ReadyAlong(ws: seq<World>, calls: seq<Call>, j: nat, k: nat, t: nat)
    requires j <= k <= |calls| < |ws|
    requires forall l :: j <= l < k ==> ReadyThrough(ws[l], ws[l + 1], calls[l])
    requires t < |ws[j].sessions| && ws[j].ViewOf(t).Ready()
    requires forall l :: j <= l < k ==> !Connects(calls[l], ws[j].sessions[t].id)
    ensures t < |ws[k].sessions| && ws[k].sessions[t].id == ws[j].sessions[t].id && ws[k].ViewOf(t).Ready()
    decreases k
  {
    if j < k {
      ReadyAlong(ws, calls, j, k - 1, t);
      assert ReadyThrough(ws[k - 1], ws[k], calls[k - 1]);
    }
  }

  ghost function States(w: World, calls: seq<Call>, answers: seq<Answers>): (ws: seq<World>)
    requires w.Shaped() && |calls| == |answers| && AllFit(calls, |w.devs|)
    ensures |ws| == |calls| + 1 && forall k :: 0 <= k <= |calls| ==> ws[k] == After(w, calls, answers, k)
  {
    seq(|calls| + 1, k requires 0 <= k <= |calls| => After(w, calls, answers, k))
  }

  ghost function Returns(w: World, calls: seq<Call>, answers: seq<Answers>): (rs: seq<Status>)
    requires w.Shaped() && |calls| == |answers| && AllFit(calls, |w.devs|)
    ensures |rs| == |calls| && forall k :: 0 <= k < |calls| ==> rs[k] == CallAt(w, calls, answers, k).r
  {
    seq(|calls|, k requires 0 <= k < |calls| => CallAt(w, calls, answers, k).r)
  }

  // While the books balance, every call leaves the sessions ready that it connects nothing to.
  lemma ReadyThroughout(w: World, calls: seq<Call>, answers: seq<Answers>, k: nat)
    requires w.Shaped() && k <= |calls| == |answers| && AllFit(calls, |w.devs|) && InvUpTo(w, calls, answers, k)
    ensures var ws := States(w, calls, answers); forall l :: 0 <= l < k ==> ReadyThrough(ws[l], ws[l + 1], calls[l])
  {
    var ws := States(w, calls, answers);
    forall l | 0 <= l < k ensures ReadyThrough(ws[l], ws[l + 1], calls[l]) {
      assert Books(w, calls, answers)[l] && Books(w, calls, answers)[l + 1];
      RunStep(w, calls, answers, l);
    }
  }

  /** A session that is ready stays so as long as it connects nothing, whatever the others do. */
  lemma StaysReady(w: World, calls: seq<Call>, answers: seq<Answers>, j: nat, k: nat, t: nat)
    requires w.Shaped() && j <= k <= |calls| == |answers| && AllFit(calls, |w.devs|)
    requires InvUpTo(w, calls, answers, k)
    requires var u := After(w, calls, answers, j);
             && t < |u.sessions| && u.ViewOf(t).Ready()
             && forall l :: j <= l < k ==> !Connects(calls[l], u.sessions[t].id)
    ensures var v := After(w, calls, answers, k); t < |v.sessions| && v.ViewOf(t).Ready()
  {
    ReadyThroughout(w, calls, answers, k);
    ReadyAlong(States(w, calls, answers), calls, j, k, t);
  }

  lemma PreparedNow(w: World, calls: seq<Call>, answers: seq<Answers>, j: nat, t: nat)
    requires w.Shaped() && j < |calls| == |answers| && AllFit(calls, |w.devs|)
    requires InvUpTo(w, calls, answers, j + 1)
    requires calls[j] == CPrepare(t) && CallAt(w, calls, answers, j).r == Ok
    ensures Prepared(States(w, calls, answers), j, t)
  {
    assert Books(w, calls, answers)[j] && Books(w, calls, answers)[j + 1];
    RunStep(w, calls, answers, j);
  }

  // Step j has made session t ready.
  ghost predicate Prepared(ws: seq<World>, j: nat, t: nat)
    requires j + 1 < |ws|
  {
    t < |ws[j].sessions| <= |ws[j + 1].sessions| && ws[j + 1].sessions[t].id == ws[j].sessions[t].id &&
    ws[j + 1].ViewOf(t).Ready()
  }

  lemma PreparedAlong(ws: seq<World>, calls: seq<Call>, j: nat, k: nat, t: nat)
    requires j < k <= |calls| < |ws|
    requires forall l :: 0 <= l < k ==> ReadyThrough(ws[l], ws[l + 1], calls[l])
    requires Prepared(ws, j, t)
    requires forall l :: j < l < k ==> !Connects(calls[l], ws[j].sessions[t].id)
    ensures t < |ws[k].sessions| && ws[k].ViewOf(t).Ready()
  {
    ReadyAlong(ws, calls, j + 1, k, t);
  }

  lemma ReadyStarts(w: World, calls: seq<Call>, answers: seq<Answers>, k: nat, t: nat)
    requires w.Shaped() && k < |calls| == |answers| && AllFit(calls, |w.devs|) && InvUpTo(w, calls, answers, k)
    requires var u := States(w, calls, answers)[k]; t < |u.sessions| && u.ViewOf(t).Ready()
    requires calls[k] == CStart(t)
    ensures CallAt(w, calls, answers, k).r != NotPrepared
  {
    assert Books(w, calls, answers)[k];
    RunStep(w, calls, answers, k);
  }

  /** After a prepare that returned success, no start of that session is refused as not prepared on that condition. */
  lemma PreparedStarts(w: World, calls: seq<Call>, answers: seq<Answers>, j: nat, k: nat, t: nat)
    requires w.Shaped() && j < k < |calls| == |answers| && AllFit(calls, |w.devs|)
    requires InvUpTo(w, calls, answers, k)
    requires calls[j] == CPrepare(t) && CallAt(w, calls, answers, j).r == Ok && calls[k] == CStart(t)
    requires var u := States(w, calls, answers)[j];
             t < |u.sessions| ==> forall l :: j < l < k ==> !Connects(calls[l], u.sessions[t].id)
    ensures CallAt(w, calls, answers, k).r != NotPrepared
  {
    PreparedNow(w, calls, answers, j, t);
    ReadyThroughout(w, calls, answers, k);
    PreparedAlong(States(w, calls, answers), calls, j, k, t);
    ReadyStarts(w, calls, answers, k, t);
  }
}
