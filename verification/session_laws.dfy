/**
  What the calls on a session do, AIF by AIF and code by code, in terms of the states and the counts alone.
  SessionSpec says how they come about; here is what a client sees (service/src/session_obj.c).
*/
module SessionLaws {
  import opened Common
  import opened Devices
  import opened Cells
  import opened SessionSpec

  const ATTACHED := {AifOpened, AifStopped, AifPrepared, AifStarted}

  // ---- one AIF and its device, before and after ---------------------------------------------

  predicate OpenedAif(c: Cell, d: Cell) {
    if c.aif == AifOpen then
      && d.aif == AifOpened && d.dev.open == c.dev.open + 1
      && (c.dev.open == 0 ==> d.dev.state == DevOpened && d.dev.handles == c.dev.handles + 1)
      && (c.dev.open != 0 ==> d.dev.state == c.dev.state && d.dev.handles == c.dev.handles)
      && d.dev.prepare == c.dev.prepare && d.dev.start == c.dev.start
    else d == c
  }

  predicate PreparedAif(c: Cell, d: Cell) {
    if c.aif in {AifOpened, AifStopped} then
      && d.aif == AifPrepared && d.dev.prepare == c.dev.prepare + 1
      && d.dev.state == (if c.dev.prepare == 0 then DevPrepared else c.dev.state)
      && d.dev.open == c.dev.open && d.dev.start == c.dev.start && d.dev.handles == c.dev.handles
    else d == c
  }

  predicate StartedAif(c: Cell, d: Cell) {
    if c.aif in {AifOpened, AifStopped, AifPrepared} then
      && d.aif == AifStarted && d.dev.start == c.dev.start + 1
      && d.dev.state == (if c.dev.start == 0 then DevStarted else c.dev.state)
      && d.dev.open == c.dev.open && d.dev.prepare == c.dev.prepare && d.dev.handles == c.dev.handles
    else d == c
  }

  predicate StoppedAif(c: Cell, d: Cell) {
    if c.aif == AifStarted then d.aif == AifStopped && OneStartLess(c.dev, d.dev)
    else d == c
  }

  // A device that nobody has started stays as it is.
  predicate OneStartLess(c: Counters, d: Counters) {
    && d.start == (if c.start == 0 then 0 else c.start - 1)
    && d.state == (if c.start == 1 then DevStopped else c.state)
    && d.open == c.open && d.prepare == c.prepare && d.handles == c.handles
  }

  // A start that is undone: the count is as before, but a device that was not started is now stopped.
  predicate UndoneAif(c: Cell, d: Cell) {
    if c.aif in {AifOpened, AifStopped, AifPrepared} then
      && d.aif == AifOpened
      && (c.dev.start >= 0 ==> d.dev.start == c.dev.start)
      && (c.dev.start >= 0 ==> d.dev.state == if c.dev.start == 0 then DevStopped else c.dev.state)
      && d.dev.open == c.dev.open && d.dev.prepare == c.dev.prepare && d.dev.handles == c.dev.handles
    else KnockedBackAif(c, d)
  }

  // An AIF the start did not get to: only one that was started before is set back.
  predicate KnockedBackAif(c: Cell, d: Cell) {
    if c.aif == AifStarted then d.aif == AifOpened && OneStartLess(c.dev, d.dev)
    else d == c
  }

  predicate ClosedAif(c: Cell, d: Cell) {
    if c.aif in ATTACHED then d.aif == AifClosed && OneOpenLess(c.dev, d.dev)
    else d == c
  }

  predicate OneOpenLess(c: Counters, d: Counters) {
    && d.open == c.open - 1
    && (c.open == 1 ==> d == Counters(DevClosed, 0, 0, 0, c.handles - 1))
    && (c.open != 1 ==> d == c.(open := d.open))
  }

  predicate SameAif(c: Cell, d: Cell) { d == c }

  // The first n AIFs have changed by one law, the others by another, and no other device has changed.
  ghost predicate Each(v: View, w: View, n: nat, first: (Cell, Cell) -> bool, rest: (Cell, Cell) -> bool)
    requires v.Shape()
  {
    && SameAifs(v, w)
    && (forall k :: 0 <= k < |v.pool| ==> if k < n then first(v.At(k), w.At(k)) else rest(v.At(k), w.At(k)))
    && (forall j :: 0 <= j < |v.devs| && !Has(v.pool, j) ==> w.devs[j] == v.devs[j])
  }

  ghost predicate NothingAttached(v: View) {
    forall k :: 0 <= k < |v.pool| ==> v.pool[k].state !in ATTACHED
  }

  lemma NothingAttachedIsNone(v: View)
    ensures NothingAttached(v) <==> v.NoneAttached()
  {
    if v.NoneAttached() {
      forall k | 0 <= k < |v.pool| ensures v.pool[k].state !in ATTACHED {
        assert !Attached(v.pool[k].state);
      }
    }
    if NothingAttached(v) {
      forall k | 0 <= k < |v.pool| ensures !Attached(v.pool[k].state) {
        assert v.pool[k].state !in ATTACHED;
      }
    }
  }

  // ---- prepare -----------------------------------------------------------------------------

  ghost predicate Unpreparable(v: View, a: Answers, k: nat)
    requires v.Shape() && k < |v.pool|
  {
    v.pool[k].state in {AifOpened, AifStopped} && v.devs[v.pool[k].id].prepare == 0 && !a.pcmPrepares(k)
  }

  lemma SweptEach(v: View, n: nat, op: Op, law: (Cell, Cell) -> bool)
    requires v.Shape() && n <= |v.pool|
    requires forall c :: law(c, Apply(op, c))
    ensures Each(v, Sweep(v, All(op, n)), n, law, SameAif)
  {
    SweepAt(v, All(op, n));
  }

  lemma PrepareDevicesLaw(v: View, st: SessState, dir: Direction, a: Answers) returns (n: nat)
    requires v.Shape()
    ensures FirstUnpreparable(v, a, n)
    ensures var e := PrepareDevicesEffect(v, st, dir, a);
            && Each(v, e.view, n, PreparedAif, SameAif)
            && e.r == (if n < |v.pool| then DriverError
                       else if dir == RX && st != SessStarted && !a.graphPrepares then GraphError else Ok)
            && e.state == (if e.r == Ok then SessPrepared else st)
  {
    n := PrepareReach(v, a, |v.pool|);
    forall k | 0 <= k < n ensures !Unpreparable(v, a, k) {
      assert !PrepareFails(v.At(k), a.pcmPrepares(k));
    }
    SweptEach(v, n, Op.Prepare, PreparedAif);
  }

  // The place of the first AIF whose device cannot be prepared, or else the size of the pool.
  ghost predicate FirstUnpreparable(v: View, a: Answers, n: nat)
    requires v.Shape()
  {
    && n <= |v.pool| && (n < |v.pool| ==> Unpreparable(v, a, n))
    && forall k :: 0 <= k < n ==> !Unpreparable(v, a, k)
  }

  /** For capture the graph is prepared first, for playback last; the devices up to the first that fails. */
  lemma PrepareLaw(v: View, st: SessState, dir: Direction, a: Answers) returns (n: nat)
    requires v.Shape()
    ensures FirstUnpreparable(v, a, n)
    ensures var e := PrepareEffect(v, st, dir, a);
            var refused := st != SessStarted && !a.graphPrepares;
            if NothingAttached(v) then e == Effect(NoInterface, v, st)
            else if dir == TX && refused then e == Effect(GraphError, v, st)
            else
              && Each(v, e.view, n, PreparedAif, SameAif)
              && e.r == (if n < |v.pool| then DriverError else if dir == RX && refused then GraphError else Ok)
              && e.state == (if e.r == Ok then SessPrepared else st)
  {
    NothingAttachedIsNone(v);
    n := PrepareDevicesLaw(v, st, dir, a);
  }

  // ---- start -------------------------------------------------------------------------------

  // An AIF that is to be started, on a device that is not prepared.
  ghost predicate Refused(v: View, k: nat)
    requires v.Shape() && k < |v.pool|
  {
    v.pool[k].state in {AifOpened, AifStopped, AifPrepared} && v.devs[v.pool[k].id].state in {DevClosed, DevOpened}
  }

  ghost predicate FirstRefused(v: View, n: nat)
    requires v.Shape()
  {
    && n <= |v.pool| && (n < |v.pool| ==> Refused(v, n))
    && forall k :: 0 <= k < n ==> !Refused(v, k)
  }

  lemma RefusedIsStuck(v: View, k: nat)
    requires v.Shape() && k < |v.pool|
    ensures Refused(v, k) <==> StuckAt(v, k)
  {}

  lemma StartedCell(c: Cell)
    ensures !(Startable(c.aif) && StartRefused(c.dev)) ==>
              && StartedAif(c, Apply(Op.Start, c)) && UndoneAif(c, Apply(Op.Unstart, Apply(Op.Start, c)))
    ensures KnockedBackAif(c, Apply(Op.Unstart, c))
  {}

  lemma RestartedEach(v: View, n: nat)
    requires v.Shape() && n <= |v.pool| && forall k :: 0 <= k < n ==> !StuckAt(v, k)
    ensures Each(v, Restarted(v, n), n, UndoneAif, KnockedBackAif)
  {
    var u := Sweep(v, All(Op.Start, n));
    var w := Restarted(v, n);
    SweepElsewhere(v, All(Op.Start, n));
    SweepElsewhere(u, All(Op.Unstart, |u.pool|));
    forall k | 0 <= k < |v.pool|
      ensures if k < n then UndoneAif(v.At(k), w.At(k)) else KnockedBackAif(v.At(k), w.At(k))
    {
      assert k < n ==> !StuckAt(v, k);
      RestartedCell(v, n, k);
      StartedCell(v.At(k));
    }
  }

  lemma RestartedCell(v: View, n: nat, k: nat)
    requires v.Shape() && n <= |v.pool| && k < |v.pool|
    ensures var c := if k < n then Apply(Op.Start, v.At(k)) else v.At(k);
            && Restarted(v, n).Shape() && |Restarted(v, n).pool| == |v.pool|
            && Restarted(v, n).At(k) == Apply(Op.Unstart, c)
  {
    var u := Sweep(v, All(Op.Start, n));
    SweepCell(v, All(Op.Start, n), k);
    SweepCell(u, All(Op.Unstart, |u.pool|), k);
  }

  lemma StartedEach(v: View)
    requires v.Shape() && forall k :: 0 <= k < |v.pool| ==> !StuckAt(v, k)
    ensures Each(v, Sweep(v, All(Op.Start, |v.pool|)), |v.pool|, StartedAif, SameAif)
  {
    var w := Sweep(v, All(Op.Start, |v.pool|));
    SweepElsewhere(v, All(Op.Start, |v.pool|));
    forall k | 0 <= k < |v.pool| ensures StartedAif(v.At(k), w.At(k)) {
      assert !StuckAt(v, k);
      SweepCell(v, All(Op.Start, |v.pool|), k);
      StartedCell(v.At(k));
    }
  }

  lemma LaunchLaw(v: View, st: SessState, dir: Direction, a: Answers) returns (n: nat)
    requires v.Shape()
    ensures FirstRefused(v, n)
    ensures var e := LaunchEffect(v, st, dir, a);
            && e.r == (if n < |v.pool| then NotPrepared else if dir == RX && !a.graphStarts then GraphError else Ok)
            && (if e.r == Ok then e.state == SessStarted && Each(v, e.view, |v.pool|, StartedAif, SameAif)
                else e.state == st && Each(v, e.view, n, UndoneAif, KnockedBackAif))
  {
    n := StartReach(v, |v.pool|);
    forall k | 0 <= k < |v.pool| ensures Refused(v, k) <==> StuckAt(v, k) {
      RefusedIsStuck(v, k);
    }
    RestartedEach(v, n);
    if n == |v.pool| {
      StartedEach(v);
    }
  }

  /** For capture the edges and the graph come first, for playback the graph comes last. n: the first AIF refused. */
  lemma StartLaw(v: View, st: SessState, dir: Direction, a: Answers) returns (n: nat)
    requires v.Shape()
    ensures FirstRefused(v, n)
    ensures var e := StartEffect(v, st, dir, a);
            if NothingAttached(v) then e == Effect(NoInterface, v, st)
            else if dir == TX && a.edges != EdgesReady then e == Effect(EdgeStatus(a.edges), v, st)
            else if dir == TX && !a.graphStarts then e == Effect(GraphError, v, st)
            else
              && e.r == (if n < |v.pool| then NotPrepared else if dir == RX && !a.graphStarts then GraphError else Ok)
              && (if e.r == Ok then e.state == SessStarted && Each(v, e.view, |v.pool|, StartedAif, SameAif)
                  else e.state == st && Each(v, e.view, n, UndoneAif, KnockedBackAif))
  {
    NothingAttachedIsNone(v);
    n := LaunchLaw(v, st, dir, a);
  }

  /** Just when a start succeeds. */
  lemma StartSucceeds(v: View, st: SessState, dir: Direction, a: Answers)
    requires v.Shape()
    ensures StartEffect(v, st, dir, a).r == Ok <==>
            && !NothingAttached(v) && (forall k :: 0 <= k < |v.pool| ==> !Refused(v, k))
            && (dir != Unset ==> a.graphStarts) && (dir == TX ==> a.edges == EdgesReady)
  {
    var n := StartLaw(v, st, dir, a);
  }

  /**
    After a successful start every attached AIF is in AIF_STARTED on a started device, which has been started
    exactly once more for an AIF that was not started yet.
  */
  lemma StartStarts(v: View, st: SessState, dir: Direction, a: Answers)
    requires v.Shape() && v.Sound() && StartEffect(v, st, dir, a).r == Ok
    ensures var e := StartEffect(v, st, dir, a);
            && e.state == SessStarted && SameAifs(v, e.view)
            && forall k :: 0 <= k < |v.pool| ==>
                 if v.pool[k].state in ATTACHED then
                   && e.view.pool[k].state == AifStarted && e.view.devs[v.pool[k].id].state == DevStarted
                   && e.view.devs[v.pool[k].id].start ==
                      v.devs[v.pool[k].id].start + (if v.pool[k].state == AifStarted then 0 else 1)
                 else e.view.At(k) == v.At(k)
  {
    var n := StartLaw(v, st, dir, a);
    AllStarted(v, StartEffect(v, st, dir, a).view);
  }

  lemma AllStarted(v: View, w: View)
    requires v.Shape() && v.Sound() && Each(v, w, |v.pool|, StartedAif, SameAif)
    ensures forall k :: 0 <= k < |v.pool| ==>
              if v.pool[k].state in ATTACHED then
                && w.pool[k].state == AifStarted && w.devs[v.pool[k].id].state == DevStarted
                && w.devs[v.pool[k].id].start ==
                   v.devs[v.pool[k].id].start + (if v.pool[k].state == AifStarted then 0 else 1)
              else w.At(k) == v.At(k)
  {
    forall k | 0 <= k < |v.pool|
      ensures if v.pool[k].state in ATTACHED then
                && w.pool[k].state == AifStarted && w.devs[v.pool[k].id].state == DevStarted
                && w.devs[v.pool[k].id].start ==
                   v.devs[v.pool[k].id].start + (if v.pool[k].state == AifStarted then 0 else 1)
              else w.At(k) == v.At(k)
    {
      SoundAt(v, k);
      assert StartedAif(v.At(k), w.At(k));
    }
  }

  /**
    A start that got to the devices and fails leaves no AIF in AIF_STARTED. Counts are as before, less the start
    of an AIF that was started already.
  */
  lemma FailedStartUndone(v: View, st: SessState, dir: Direction, a: Answers)
    requires v.Shape() && v.Sound()
    requires StartEffect(v, st, dir, a).r == NotPrepared || (StartEffect(v, st, dir, a).r == GraphError && dir != TX)
    ensures var e := StartEffect(v, st, dir, a);
            && e.state == st && SameAifs(v, e.view)
            && forall k :: 0 <= k < |v.pool| ==>
                 && e.view.pool[k].state != AifStarted
                 && e.view.devs[v.pool[k].id].start ==
                    v.devs[v.pool[k].id].start - (if v.pool[k].state == AifStarted then 1 else 0)
  {
    var n := StartLaw(v, st, dir, a);
    AllUndone(v, StartEffect(v, st, dir, a).view, n);
  }

  lemma AllUndone(v: View, w: View, n: nat)
    requires v.Shape() && v.Sound() && Each(v, w, n, UndoneAif, KnockedBackAif)
    ensures forall k :: 0 <= k < |v.pool| ==>
              && w.pool[k].state != AifStarted
              && w.devs[v.pool[k].id].start ==
                 v.devs[v.pool[k].id].start - (if v.pool[k].state == AifStarted then 1 else 0)
  {
    forall k | 0 <= k < |v.pool|
      ensures w.pool[k].state != AifStarted
      ensures w.devs[v.pool[k].id].start ==
              v.devs[v.pool[k].id].start - (if v.pool[k].state == AifStarted then 1 else 0)
    {
      SoundAt(v, k);
      assert if k < n then UndoneAif(v.At(k), w.At(k)) else KnockedBackAif(v.At(k), w.At(k));
    }
  }

  // ---- stop and close ----------------------------------------------------------------------

  // The last AIF of a kind, or none of them.
  ghost predicate LastWith(v: View, kind: set<AifState>, n: int) {
    && -1 <= n < |v.pool| && (n >= 0 ==> v.pool[n].state in kind)
    && forall k :: n < k < |v.pool| ==> v.pool[k].state !in kind
  }

  lemma {:induction false} StopStatusLaw(v: View, a: Answers, n: nat) returns (last: int)
    requires v.Shape() && n <= |v.pool|
    ensures -1 <= last < n && (last >= 0 ==> v.pool[last].state == AifStarted)
    ensures forall k :: last < k < n ==> v.pool[k].state != AifStarted
    ensures StopStatus(v, a, n) ==
            if last >= 0 && v.devs[v.pool[last].id].start == 1 && !a.pcmStops(last) then DriverError else Ok
  {
    if n == 0 {
      last := -1;
    } else if v.pool[n - 1].state == AifStarted {
      last := n - 1;
    } else {
      last := StopStatusLaw(v, a, n - 1);
    }
  }

  lemma {:induction false} CloseStatusLaw(v: View, a: Answers, n: nat) returns (last: int)
    requires v.Shape() && n <= |v.pool|
    ensures -1 <= last < n && (last >= 0 ==> v.pool[last].state in ATTACHED)
    ensures forall k :: last < k < n ==> v.pool[k].state !in ATTACHED
    ensures CloseStatus(v, a, n) ==
            if last == -1 then GraphStatus(a.graphCloses)
            else if v.devs[v.pool[last].id].open == 1 && !a.pcmCloses(last) then DriverError else Ok
  {
    if n == 0 {
      last := -1;
    } else if v.pool[n - 1].state in ATTACHED {
      last := n - 1;
    } else {
      last := CloseStatusLaw(v, a, n - 1);
    }
  }

  /** last: the last AIF that was started, whose device's answer is returned unless it is capture. */
  lemma StopLaw(v: View, st: SessState, dir: Direction, a: Answers) returns (last: int)
    requires v.Shape()
    ensures LastWith(v, {AifStarted}, last)
    ensures var e := StopEffect(v, st, dir, a);
            if st != SessStarted then e == Effect(Invalid, v, st)
            else if dir == RX && !a.graphStops then e == Effect(GraphError, v, st)
            else
              && e.state == SessStopped && Each(v, e.view, |v.pool|, StoppedAif, SameAif)
              && e.r == if dir == TX then (if a.graphStops then Ok else GraphError)
                        else if last >= 0 && v.devs[v.pool[last].id].start == 1 && !a.pcmStops(last) then DriverError
                        else Ok
  {
    last := StopStatusLaw(v, a, |v.pool|);
    SweptEach(v, |v.pool|, Op.Stop, StoppedAif);
  }

  /** last: the last AIF that was attached, whose device's answer is returned; the graph's if there is none. */
  lemma CloseLaw(v: View, st: SessState, a: Answers) returns (last: int)
    requires v.Shape()
    ensures LastWith(v, ATTACHED, last)
    ensures var e := CloseEffect(v, st, a);
            if st == SessClosed then e == Effect(Already, v, st)
            else
              && e.state == SessClosed && Each(v, e.view, |v.pool|, ClosedAif, SameAif)
              && e.r == if last == -1 then (if a.graphCloses then Ok else GraphError)
                        else if v.devs[v.pool[last].id].open == 1 && !a.pcmCloses(last) then DriverError
                        else Ok
  {
    last := CloseStatusLaw(v, a, |v.pool|);
    SweptEach(v, |v.pool|, Op.Close, ClosedAif);
  }

  // ---- connecting a device -----------------------------------------------------------------

  // The device has been opened once more.
  predicate OneOpenMore(c: Counters, d: Counters) {
    && d.open == c.open + 1 && d.prepare == c.prepare && d.start == c.start
    && d.state == (if c.open == 0 then DevOpened else c.state)
    && d.handles == c.handles + (if c.open == 0 then 1 else 0)
  }

  /**
    What decides a connect: the first AIF of a closed session needs graph_open, the callback and the session's
    parameters, the first of a live session graph_change, and any other graph_add.
  */
  lemma ConnectLaw(a: ConnectAnswers, first: bool, st: SessState, dev: Counters)
    ensures var (r, d) := ConnectOutcome(a, first, st, dev);
            var device := a.merges && (dev.open == 0 ==> a.pcmOpens);
            var params := a.aifParams && (dev.open == 0 || dev.state == DevOpened ==> a.devParams);
            && (r == NoMemory <==> !a.merges)
            && (r == DriverError <==> a.merges && !device)
            && r in {Ok, NoMemory, DriverError, GraphError}
            && (st == SessClosed && first ==>
                  (r == Ok <==> device && a.graphOpens && a.registers && a.sessParams && params))
            && (st == SessClosed && !first ==> (r == Ok <==> device && a.graphAdds && a.sessParams && params))
            && (st != SessClosed && first ==> (r == Ok <==> device && a.graphChanges && params))
            && (st != SessClosed && !first ==> (r == Ok <==> device && a.graphAdds && params))
            && (r == Ok ==> OneOpenMore(dev, d)) && (r != Ok && dev.Consistent() ==> d == dev)
  {
    if dev.Consistent() {
      FailedConnectRestores(a, first, st, dev);
    }
  }

  // ---- open --------------------------------------------------------------------------------

  ghost predicate FirstOpen(v: View, f: nat) {
    && f <= |v.pool| && (f < |v.pool| ==> v.pool[f].state == AifOpen)
    && forall k :: 0 <= k < f ==> v.pool[k].state != AifOpen
  }

  // AIF k waits and cannot be connected to a graph that is open already.
  ghost predicate CannotJoin(v: View, a: Answers, k: nat)
    requires v.Shape() && k < |v.pool|
  {
    v.pool[k].state == AifOpen && ConnectOutcome(a.connect(k), false, SessClosed, v.devs[v.pool[k].id]).0 != Ok
  }

  // n is the first AIF behind f that cannot be connected.
  ghost predicate FirstCannotJoin(v: View, a: Answers, f: nat, n: nat)
    requires v.Shape()
  {
    && f < n <= |v.pool| && (n < |v.pool| ==> CannotJoin(v, a, n))
    && forall k :: f < k < n ==> !CannotJoin(v, a, k)
  }

  // AIF k of an open that was undone because of AIF n: only a disconnect that gave up leaves a trace.
  ghost predicate UnwoundAt(v: View, a: Answers, n: nat, w: View, k: nat)
    requires v.Shape() && SameAifs(v, w) && k < |v.pool|
  {
    && w.pool[k] == v.pool[k]
    && if k < n && v.pool[k].state == AifOpen && (!a.disconnect(k).merges || !a.disconnect(k).mergesSessAif)
       then OneOpenMore(v.devs[v.pool[k].id], w.devs[v.pool[k].id])
       else w.devs[v.pool[k].id] == v.devs[v.pool[k].id]
  }

  lemma UnwoundByAnswer(c: Cell, connected: bool, a: DisconnectAnswers)
    requires c.Sound() && !Attached(c.aif)
    ensures var x := if connected then Apply(Op.Connect, c) else c;
            var d := Apply(UnwindOp(x.aif, a), x);
            && d.aif == c.aif
            && if connected && c.aif == AifOpen && (!a.merges || !a.mergesSessAif) then OneOpenMore(c.dev, d.dev)
               else d.dev == c.dev
  {
    CloseUndoesOpen(c.dev);
  }

  // What the sweeps make of AIF k.
  lemma UnwoundAtCell(v: View, a: Answers, n: nat, k: nat)
    requires v.Shape() && n < |v.pool| && k < |v.pool|
    ensures var x := Sweep(v, All(Op.Connect, n));
            var c := if k < n then Apply(Op.Connect, v.At(k)) else v.At(k);
            Sweep(x, UnwindOps(x, a, |x.pool|)).At(k) == Apply(UnwindOp(c.aif, a.disconnect(k)), c)
  {
    var x := Sweep(v, All(Op.Connect, n));
    SweepCell(v, All(Op.Connect, n), k);
    SweepCell(x, UnwindOps(x, a, |x.pool|), k);
    assert x.At(k).aif == x.pool[k].state;
  }

  lemma UnwoundAtAnswers(v: View, a: Answers, n: nat, k: nat)
    requires v.Shape() && v.Sound() && v.NoneAttached() && n < |v.pool| && k < |v.pool|
    ensures var x := Sweep(v, All(Op.Connect, n));
            var w := Sweep(x, UnwindOps(x, a, |x.pool|));
            SameAifs(v, w) && UnwoundAt(v, a, n, w, k)
  {
    UnwoundAtCell(v, a, n, k);
    SoundAt(v, k);
    UnwoundByAnswer(v.At(k), k < n, a.disconnect(k));
  }

  lemma UnwoundAll(v: View, a: Answers, n: nat)
    requires v.Shape() && v.Sound() && v.NoneAttached() && n < |v.pool|
    ensures var x := Sweep(v, All(Op.Connect, n));
            var w := Sweep(x, UnwindOps(x, a, |x.pool|));
            SameAifs(v, w) && forall k :: 0 <= k < |v.pool| ==> UnwoundAt(v, a, n, w, k)
  {
    var x := Sweep(v, All(Op.Connect, n));
    var w := Sweep(x, UnwindOps(x, a, |x.pool|));
    forall k | 0 <= k < |v.pool| ensures SameAifs(v, w) && UnwoundAt(v, a, n, w, k) {
      UnwoundAtAnswers(v, a, n, k);
    }
    UnwoundAtAnswers(v, a, n, n);
  }

  /** All AIFs connected, if none fails to; or else graph_close's answer and the ones before AIF n undone. */
  ghost predicate Behind(v: View, a: Answers, n: nat, r: Status, w: View, path: OpenPath)
    requires v.Shape() && n <= |v.pool|
  {
    if n == |v.pool| then r == Ok && path == Opened && Each(v, w, n, OpenedAif, SameAif)
    else
      && r == (if a.graphCloses then Ok else GraphError) && path.OpenUnwound? && SameAifs(v, w)
      && forall k :: 0 <= k < |v.pool| ==> UnwoundAt(v, a, n, w, k)
  }

  lemma ConnectedEach(v: View)
    requires v.Shape()
    ensures Each(v, Sweep(v, All(Op.Connect, |v.pool|)), |v.pool|, OpenedAif, SameAif)
  {
    SweptEach(v, |v.pool|, Op.Connect, OpenedAif);
  }

  // An open whose first AIF, f, connects. n: the first further AIF that does not.
  lemma OpenLawBehind(v: View, a: Answers, f: nat) returns (n: nat)
    requires v.Shape() && v.Sound() && v.NoneAttached() && f == FirstWaiting(v.pool) < |v.pool|
    requires FirstOutcome(v, SessClosed, a).0 == Ok
    ensures FirstCannotJoin(v, a, f, n)
    ensures var e := RemainingEffect(Linked(v, f, FirstOutcome(v, SessClosed, a)), SessClosed, a);
            Behind(v, a, n, e.0, e.1, e.2)
  {
    var u := Linked(v, f, FirstOutcome(v, SessClosed, a));
    n := ConnectReach(u, SessClosed, a, |u.pool|);
    JoinsBehind(v, a, f);
    RemainingFromStart(v, SessClosed, a);
    var x := Sweep(v, All(Op.Connect, n));
    if n < |v.pool| {
      UnwoundAll(v, a, n);
      var ops := UnwindOps(x, a, |x.pool|);
      assert RemainingEffect(u, SessClosed, a) == (GraphStatus(a.graphCloses), Sweep(x, ops), OpenUnwound(n, ops));
    } else {
      ConnectedEach(v);
      assert RemainingEffect(u, SessClosed, a) == (Ok, x, Opened);
    }
  }

  lemma JoinsBehind(v: View, a: Answers, f: nat)
    requires v.Shape() && v.Sound() && f == FirstWaiting(v.pool) < |v.pool| && FirstOutcome(v, SessClosed, a).0 == Ok
    ensures var u := Linked(v, f, FirstOutcome(v, SessClosed, a));
            u.Shape() && FirstCannotJoin(v, a, f, ConnectReach(u, SessClosed, a, |u.pool|))
  {
    var u := Linked(v, f, FirstOutcome(v, SessClosed, a));
    FirstLinked(v, SessClosed, a);
    PutAt(v, f, Apply(Op.Connect, v.At(f)));
    var n := ConnectReach(u, SessClosed, a, |u.pool|);
    forall k | 0 <= k < |v.pool| ensures LaterFails(u, SessClosed, a, k) <==> CannotJoin(v, a, k) && k != f {
      assert u.At(k) == if k == f then Apply(Op.Connect, v.At(f)) else v.At(k);
    }
    assert forall k :: f < k < n ==> !LaterFails(u, SessClosed, a, k);
    assert n < |v.pool| ==> LaterFails(u, SessClosed, a, n);
  }

  /**
    An open, from consistent devices: f is the first AIF that waits, n the first further one that cannot be
    connected. It is undone up to a leak, or every waiting AIF is in AIF_OPENED.
  */
  lemma OpenLaw(v: View, st: SessState, a: Answers) returns (f: nat, n: nat)
    requires v.Shape() && v.Sound() && Phase(v, st)
    ensures FirstOpen(v, f)
    ensures var e := OpenEffect(v, st, a).0;
            if st != SessClosed then e == Effect(Already, v, st)
            else if f == |v.pool| then e == Effect(NoInterface, v, st)
            else
              var r := ConnectOutcome(a.connect(f), true, SessClosed, v.devs[v.pool[f].id]).0;
              if r != Ok then e == Effect(r, v, SessClosed)
              else
                && FirstCannotJoin(v, a, f, n)
                && (if n == |v.pool| then Each(v, e.view, n, OpenedAif, SameAif)
                    else SameAifs(v, e.view) && forall k :: 0 <= k < |v.pool| ==> UnwoundAt(v, a, n, e.view, k))
                && e.r == (if n < |v.pool| && !a.graphCloses then GraphError else EdgeStatus(a.edges))
                && e.state == (if e.r == Ok then SessOpened else SessClosed)
  {
    f, n := FirstWaiting(v.pool), 0;
    if st == SessClosed && f < |v.pool| {
      FirstLinked(v, st, a);
      if FirstOutcome(v, st, a).0 == Ok {
        n := OpenLawBehind(v, a, f);
      }
    }
  }

  // ---- connecting and disconnecting one AIF ------------------------------------------------

  /** The AIF object is looked up, or added at the end as a closed one. */
  ghost predicate Found(v: View, id: nat, u: View, i: nat) {
    && u.devs == v.devs && |v.pool| <= |u.pool| && u.pool[..|v.pool|] == v.pool
    && i < |u.pool| && u.pool[i].id == id
    && (if Has(v.pool, id) then u == v else u.pool == v.pool + [Aif(id, AifClosed)] && i == |v.pool|)
  }

  // Only AIF i and its device may have changed.
  ghost predicate OnlyAt(u: View, w: View, i: nat)
    requires u.Shape() && i < |u.pool|
  {
    && SameAifs(u, w)
    && (forall k :: 0 <= k < |u.pool| && k != i ==> w.pool[k] == u.pool[k])
    && (forall j :: 0 <= j < |u.devs| && j != u.pool[i].id ==> w.devs[j] == u.devs[j])
  }

  // What a successful connect of AIF i makes of it and of the others, by the state of the session.
  ghost predicate JoinedOn(u: View, st: SessState, i: nat, w: View, st': SessState)
    requires u.Shape() && i < |u.pool|
  {
    && SameAifs(u, w)
    && var (d, d') := (u.devs[u.pool[i].id], w.devs[u.pool[i].id]);
       match st
       case SessClosed => st' == SessClosed && w.pool[i].state == AifOpen && OnlyAt(u, w, i) && w.devs == u.devs
       case SessOpened => st' == SessOpened && w.pool[i].state == AifOpened && OnlyAt(u, w, i) && OneOpenMore(d, d')
       case SessStarted =>
         && st' == SessStarted && w.pool[i].state == AifStarted
         && d'.state == DevStarted && d'.open == d.open + 1 && d'.start == d.start + 1
         && forall k :: 0 <= k < |u.pool| && k != i ==> CaughtUpAif(u.At(k), w.At(k))
       case _ =>
         && st' == SessPrepared && w.pool[i].state == AifPrepared
         && d'.open == d.open + 1 && d'.prepare == d.prepare + 1 && d'.start == d.start
         && forall k :: 0 <= k < |u.pool| && k != i ==> PreparedAif(u.At(k), w.At(k))
  }

  // An AIF that was started is not touched; any other attached one is started, too.
  predicate CaughtUpAif(c: Cell, d: Cell) {
    if c.aif in {AifOpened, AifStopped, AifPrepared} then
      && d.aif == AifStarted && d.dev.state == DevStarted && d.dev.start == c.dev.start + 1 && d.dev.open == c.dev.open
    else d == c
  }

  lemma CaughtUpCell(c: Cell, p: Cell, d: Cell)
    requires c.Sound() && PreparedAif(c, p) && StartedAif(p, d)
    ensures CaughtUpAif(c, d)
  {}

  lemma PreparedThenStarted(c: View, p: View, w: View)
    requires c.Shape() && p.Shape()
    requires Each(c, p, |c.pool|, PreparedAif, SameAif) && Each(p, w, |p.pool|, StartedAif, SameAif)
    ensures SameAifs(c, w) && forall k :: 0 <= k < |c.pool| && c.At(k).Sound() ==> CaughtUpAif(c.At(k), w.At(k))
  {
    forall k | 0 <= k < |c.pool| && c.At(k).Sound() ensures CaughtUpAif(c.At(k), w.At(k)) {
      assert PreparedAif(c.At(k), p.At(k)) && StartedAif(p.At(k), w.At(k));
      CaughtUpCell(c.At(k), p.At(k), w.At(k));
    }
  }

  lemma CaughtUpEach(c: View, dir: Direction, a: Answers)
    requires c.Shape() && CatchUpEffect(c, SessStarted, dir, a).r == Ok
    ensures var e := CatchUpEffect(c, SessStarted, dir, a);
            && e.state == SessStarted && SameAifs(c, e.view)
            && forall k :: 0 <= k < |c.pool| && c.At(k).Sound() ==> CaughtUpAif(c.At(k), e.view.At(k))
  {
    var p := PrepareEffect(c, SessStarted, dir, a);
    var n := PrepareLaw(c, SessStarted, dir, a);
    var m := StartLaw(p.view, p.state, dir, a);
    PreparedThenStarted(c, p.view, CatchUpEffect(c, SessStarted, dir, a).view);
  }

  lemma LinkedOnlyAt(u: View, i: nat, d: Counters)
    requires u.Shape() && i < |u.pool| && OneOpenMore(u.devs[u.pool[i].id], d)
    ensures var c := Linked(u, i, (Ok, d));
            && OnlyAt(u, c, i) && c.pool[i].state == AifOpened && c.devs[u.pool[i].id] == d
            && forall k :: 0 <= k < |u.pool| && k != i ==> c.At(k) == u.At(k)
  {
    PutAt(u, i, Cell(AifOpened, d));
  }

  // c is u with AIF i freshly connected.
  ghost predicate Fresh(u: View, i: nat, c: View)
    requires u.Shape() && i < |u.pool|
  {
    && OnlyAt(u, c, i) && c.pool[i].state == AifOpened && OneOpenMore(u.devs[u.pool[i].id], c.devs[u.pool[i].id])
    && forall k :: 0 <= k < |u.pool| ==> c.At(k).Sound() && (k != i ==> c.At(k) == u.At(k))
  }

  lemma StartedJoins(u: View, i: nat, c: View, w: View)
    requires u.Shape() && i < |u.pool| && Fresh(u, i, c) && SameAifs(c, w)
    requires forall k :: 0 <= k < |c.pool| ==> CaughtUpAif(c.At(k), w.At(k))
    ensures JoinedOn(u, SessStarted, i, w, SessStarted)
  {
    assert CaughtUpAif(c.At(i), w.At(i));
  }

  lemma PreparedJoins(u: View, st: SessState, i: nat, c: View, w: View)
    requires u.Shape() && i < |u.pool| && Fresh(u, i, c) && SameAifs(c, w)
    requires st == SessPrepared || st == SessStopped
    requires forall k :: 0 <= k < |c.pool| ==> PreparedAif(c.At(k), w.At(k))
    ensures JoinedOn(u, st, i, w, SessPrepared)
  {
    assert PreparedAif(c.At(i), w.At(i));
  }

  lemma LinkedIsFresh(u: View, i: nat, d: Counters)
    requires u.Shape() && u.Sound() && i < |u.pool| && OneOpenMore(u.devs[u.pool[i].id], d)
    ensures Fresh(u, i, Linked(u, i, (Ok, d)))
  {
    LinkedOnlyAt(u, i, d);
    forall k | 0 <= k < |u.pool| ensures Linked(u, i, (Ok, d)).At(k).Sound() {
      SoundAt(u, k);
    }
  }

  lemma CatchUpJoins(u: View, st: SessState, dir: Direction, i: nat, c: View, a: Answers)
    requires u.Shape() && st != SessClosed && i < |u.pool| && Fresh(u, i, c)
    requires CatchUpEffect(c, st, dir, a).r == Ok
    ensures var e := CatchUpEffect(c, st, dir, a); JoinedOn(u, st, i, e.view, e.state)
  {
    if st == SessStarted {
      CaughtUpEach(c, dir, a);
      StartedJoins(u, i, c, CatchUpEffect(c, st, dir, a).view);
    } else if st != SessOpened {
      var n := PrepareLaw(c, st, dir, a);
      PreparedJoins(u, st, i, c, PrepareEffect(c, st, dir, a).view);
    }
  }

  lemma ConnectJoins(u: View, dir: Direction, i: nat, a: Answers)
    requires u.Shape() && i < |u.pool|
    ensures var e := ConnectEffect(u, SessClosed, dir, i, a).0;
            e.r == Ok && JoinedOn(u, SessClosed, i, e.view, e.state)
  {
    PutAt(u, i, Cell(AifOpen, u.At(i).dev));
    PutSame(u, i);
  }

  // Every AIF that a prepare would prepare, AIF i among them, can be.
  ghost predicate AllPreparable(u: View, i: nat, a: Answers)
    requires u.Shape()
  {
    forall k :: 0 <= k < |u.pool| && (k == i || u.pool[k].state in {AifOpened, AifStopped}) ==>
      u.devs[u.pool[k].id].prepare != 0 || a.pcmPrepares(k)
  }

  lemma FreshPreparable(u: View, i: nat, c: View, a: Answers)
    requires u.Shape() && i < |u.pool| && Fresh(u, i, c)
    ensures AllPreparable(u, i, a) <==> forall k :: 0 <= k < |c.pool| ==> !Unpreparable(c, a, k)
  {
    forall k | 0 <= k < |c.pool|
      ensures Unpreparable(c, a, k) <==> (k == i || u.pool[k].state in {AifOpened, AifStopped}) &&
                                         u.devs[u.pool[k].id].prepare == 0 && !a.pcmPrepares(k)
    {
      assert k != i ==> c.At(k) == u.At(k);
    }
  }

  // Prepared AIFs are not refused.
  lemma PreparedNotRefused(c: View, st: SessState, dir: Direction, a: Answers)
    requires c.Shape() && c.Sound() && PrepareEffect(c, st, dir, a).r == Ok
    ensures var p := PrepareEffect(c, st, dir, a).view; forall k :: 0 <= k < |p.pool| ==> !Refused(p, k)
  {
    var p := PrepareEffect(c, st, dir, a).view;
    PrepareReaches(c, st, dir, a);
    KeepsSound(c, p);
    PrepareMakesReady(c, st, dir, a);
    forall k | 0 <= k < |p.pool| ensures !Refused(p, k) {
      ReadyIsNotStuck(p, k);
      RefusedIsStuck(p, k);
    }
  }

  lemma PrepareKeepsAttached(c: View, st: SessState, dir: Direction, a: Answers)
    requires c.Shape()
    ensures NothingAttached(PrepareEffect(c, st, dir, a).view) <==> NothingAttached(c)
  {
    PrepareReaches(c, st, dir, a);
    NothingAttachedIsNone(c);
    NothingAttachedIsNone(PrepareEffect(c, st, dir, a).view);
  }

  /** The answer of a session that catches up; bad: some device cannot be prepared. */
  function CatchUpCode(st: SessState, dir: Direction, a: Answers, bad: bool): Status {
    match st
    case SessOpened => Ok
    case SessStarted =>
      if bad then DriverError
      else if dir == TX && a.edges != EdgesReady then EdgeStatus(a.edges)
      else if dir != Unset && !a.graphStarts then GraphError
      else Ok
    case _ =>
      if dir == TX && !a.graphPrepares then GraphError
      else if bad then DriverError
      else if dir == RX && !a.graphPrepares then GraphError
      else Ok
  }

  // The state it is in then. A start that fails comes after a prepare that did not.
  function CatchUpState(st: SessState, r: Status, bad: bool): SessState {
    match st
    case SessOpened => SessOpened
    case SessStarted => if bad || r == Ok then SessStarted else SessPrepared
    case _ => if r == Ok then SessPrepared else st
  }

  lemma FreshPrepares(u: View, st: SessState, dir: Direction, i: nat, c: View, a: Answers)
    requires u.Shape() && i < |u.pool| && Fresh(u, i, c)
    ensures var e := PrepareEffect(c, st, dir, a);
            var refused := st != SessStarted && !a.graphPrepares;
            && e.r == (if dir == TX && refused then GraphError else if !AllPreparable(u, i, a) then DriverError
                       else if dir == RX && refused then GraphError else Ok)
            && e.state == (if e.r == Ok then SessPrepared else st)
  {
    assert c.pool[i].state in ATTACHED;
    FreshPreparable(u, i, c, a);
    var n := PrepareLaw(c, st, dir, a);
    assert n == |c.pool| <==> AllPreparable(u, i, a);
  }

  lemma PreparedLaunches(c: View, dir: Direction, a: Answers)
    requires c.Shape() && c.Sound() && !NothingAttached(c) && PrepareEffect(c, SessStarted, dir, a).r == Ok
    ensures var e := StartEffect(PrepareEffect(c, SessStarted, dir, a).view, SessPrepared, dir, a);
            && e.r == (if dir == TX && a.edges != EdgesReady then EdgeStatus(a.edges)
                       else if dir != Unset && !a.graphStarts then GraphError else Ok)
            && e.state == (if e.r == Ok then SessStarted else SessPrepared)
  {
    var p := PrepareEffect(c, SessStarted, dir, a).view;
    PreparedNotRefused(c, SessStarted, dir, a);
    PrepareKeepsAttached(c, SessStarted, dir, a);
    var m := StartLaw(p, SessPrepared, dir, a);
  }

  lemma CatchUpLaw(u: View, st: SessState, dir: Direction, i: nat, c: View, a: Answers)
    requires u.Shape() && st != SessClosed && i < |u.pool| && Fresh(u, i, c) && c.Sound()
    ensures var e := CatchUpEffect(c, st, dir, a);
            var bad := !AllPreparable(u, i, a);
            e.r == CatchUpCode(st, dir, a, bad) && e.state == CatchUpState(st, e.r, bad)
  {
    FreshPrepares(u, st, dir, i, c, a);
    if st == SessStarted && AllPreparable(u, i, a) {
      assert c.pool[i].state in ATTACHED;
      PreparedLaunches(c, dir, a);
    }
  }

  // Prepare and start, done or undone, leave the open counts alone, and an attached AIF attached.
  ghost predicate OpensKept(v: View, w: View) {
    SameAifs(v, w) && forall k :: 0 <= k < |v.pool| ==> StaysOpen(v.At(k), w.At(k))
  }

  predicate StaysOpen(c: Cell, d: Cell) {
    d.dev.open == c.dev.open && (c.aif in ATTACHED ==> d.aif in ATTACHED)
  }

  lemma EachStaysOpen(v: View, w: View, n: nat, first: (Cell, Cell) -> bool, rest: (Cell, Cell) -> bool)
    requires v.Shape() && Each(v, w, n, first, rest)
    requires forall c, d :: first(c, d) ==> StaysOpen(c, d)
    requires forall c, d :: rest(c, d) ==> StaysOpen(c, d)
    ensures OpensKept(v, w)
  {
    forall k | 0 <= k < |v.pool| ensures StaysOpen(v.At(k), w.At(k)) {
      assert if k < n then first(v.At(k), w.At(k)) else rest(v.At(k), w.At(k));
    }
  }

  lemma PrepareOpens(v: View, st: SessState, dir: Direction, a: Answers)
    requires v.Shape()
    ensures OpensKept(v, PrepareEffect(v, st, dir, a).view)
  {
    var n := PrepareLaw(v, st, dir, a);
    var w := PrepareEffect(v, st, dir, a).view;
    if w != v {
      EachStaysOpen(v, w, n, PreparedAif, SameAif);
    }
  }

  lemma StartedOpens(v: View, w: View, n: nat)
    requires v.Shape()
    requires Each(v, w, |v.pool|, StartedAif, SameAif) || Each(v, w, n, UndoneAif, KnockedBackAif)
    ensures OpensKept(v, w)
  {
    if Each(v, w, |v.pool|, StartedAif, SameAif) {
      EachStaysOpen(v, w, |v.pool|, StartedAif, SameAif);
    } else {
      EachStaysOpen(v, w, n, UndoneAif, KnockedBackAif);
    }
  }

  lemma StartOpens(v: View, st: SessState, dir: Direction, a: Answers)
    requires v.Shape()
    ensures OpensKept(v, StartEffect(v, st, dir, a).view)
  {
    var n := StartLaw(v, st, dir, a);
    if StartEffect(v, st, dir, a).view != v {
      StartedOpens(v, StartEffect(v, st, dir, a).view, n);
    }
  }

  lemma CatchUpOpens(v: View, st: SessState, dir: Direction, a: Answers)
    requires v.Shape()
    ensures OpensKept(v, CatchUpEffect(v, st, dir, a).view)
  {
    PrepareOpens(v, st, dir, a);
    StartOpens(PrepareEffect(v, st, dir, a).view, PrepareEffect(v, st, dir, a).state, dir, a);
  }

  lemma LinkedSound(u: View, i: nat, d: Counters)
    requires u.Shape() && u.Sound() && i < |u.pool| && OneOpenMore(u.devs[u.pool[i].id], d)
    requires Rank(u.pool[i].state) <= Rank(AifOpened)
    ensures Linked(u, i, (Ok, d)).Sound()
  {
    SoundAt(u, i);
    PutKeeps(u, i, Cell(AifOpened, d));
    forall j | 0 <= j < |u.devs| ensures Linked(u, i, (Ok, d)).CellOf(j).Sound() {
      assert u.CellOf(j).Sound();
    }
  }

  // Nobody is attached but, perhaps, one.
  lemma {:induction false} AttachedInCounts(pool: seq<Aif>)
    ensures AttachedIn(pool) == |set k: nat | k < |pool| && pool[k].state in ATTACHED|
    decreases |pool|
  {
    var all := set k: nat | k < |pool| && pool[k].state in ATTACHED;
    if pool != [] {
      var n := |pool| - 1;
      AttachedInCounts(pool[..n]);
      var before := set k: nat | k < |pool[..n]| && pool[..n][k].state in ATTACHED;
      assert all == before + if pool[n].state in ATTACHED then {n} else {};
    } else {
      assert all == {};
    }
  }

  // Connecting AIF i to a live session, when its device and the graph take it: it catches up, or is undone.
  ghost predicate LiveJoin(u: View, st: SessState, dir: Direction, i: nat, a: Answers, e: Effect)
    requires u.Shape() && i < |u.pool|
  {
    var bad := !AllPreparable(u, i, a);
    var gaveUp := !a.disconnect(i).merges || (NothingAttached(u) && !a.disconnect(i).mergesSessAif);
    && e.r == CatchUpCode(st, dir, a, bad) && e.state == CatchUpState(st, e.r, bad)
    && if e.r == Ok then JoinedOn(u, st, i, e.view, e.state) else JoinUndone(u, i, e.view, if gaveUp then 1 else 0)
  }

  // AIF i is still attached, and no device is open once more or less, but that of AIF i by the extra.
  ghost predicate JoinUndone(u: View, i: nat, w: View, extra: nat)
    requires u.Shape() && i < |u.pool|
  {
    && SameAifs(u, w) && w.pool[i].state in ATTACHED
    && forall k :: 0 <= k < |u.pool| ==> w.At(k).dev.open == u.At(k).dev.open + if k == i then extra else 0
  }

  lemma SettledJoin(u: View, st: SessState, dir: Direction, i: nat, c: View, a: Answers)
    requires u.Shape() && st != SessClosed && i < |u.pool| && Fresh(u, i, c) && c.Sound()
    ensures LiveJoin(u, st, dir, i, a, SettledEffect(CatchUpEffect(c, st, dir, a), i, AttachedIn(u.pool), a).0)
  {
    var e := CatchUpEffect(c, st, dir, a);
    NothingAttachedIsNone(u);
    AttachedInNone(u);
    CatchUpLaw(u, st, dir, i, c, a);
    if e.r == Ok {
      CatchUpJoins(u, st, dir, i, c, a);
    } else {
      CatchUpOpens(c, st, dir, a);
      SettledOpens(u, i, c, e.view);
    }
  }

  lemma SettledOpens(u: View, i: nat, c: View, w: View)
    requires u.Shape() && i < |u.pool| && Fresh(u, i, c) && OpensKept(c, w) && w.Shape()
    ensures JoinUndone(u, i, w, 1) && JoinUndone(u, i, w.Put(i, Closing(w.At(i))), 0)
  {
    PutAt(w, i, Closing(w.At(i)));
    forall k | 0 <= k < |u.pool| ensures w.At(k).dev.open == u.At(k).dev.open + if k == i then 1 else 0 {
      assert StaysOpen(c.At(k), w.At(k));
    }
  }

  /** Connecting AIF i: refused, only noted for the next open, failed without a change, or live. */
  lemma JoinLaw(u: View, st: SessState, dir: Direction, i: nat, a: Answers)
    requires u.Shape() && u.Sound() && i < |u.pool|
    ensures var e := JoinEffect(u, st, dir, i, true, a).0;
            var r := ConnectOutcome(a.connect(i), NothingAttached(u), st, u.devs[u.pool[i].id]).0;
            if u.pool[i].state in {AifStopped, AifPrepared, AifStarted} then e == Effect(Already, u, st)
            else if st == SessClosed then e.r == Ok && JoinedOn(u, st, i, e.view, e.state)
            else if r != Ok then e == Effect(r, u, st)
            else LiveJoin(u, st, dir, i, a, e)
  {
    NothingAttachedIsNone(u);
    AttachedInNone(u);
    if u.pool[i].state in {AifClosed, AifClose, AifOpen, AifOpened} {
      assert JoinEffect(u, st, dir, i, true, a) == ConnectEffect(u, st, dir, i, a);
      if st == SessClosed {
        ConnectJoins(u, dir, i, a);
      } else {
        LiveConnects(u, st, dir, i, a);
      }
    }
  }

  lemma LiveConnects(u: View, st: SessState, dir: Direction, i: nat, a: Answers)
    requires u.Shape() && u.Sound() && i < |u.pool| && st != SessClosed && Rank(u.pool[i].state) <= Rank(AifOpened)
    ensures var e := ConnectEffect(u, st, dir, i, a).0;
            var r := ConnectOutcome(a.connect(i), AttachedIn(u.pool) == 0, st, u.At(i).dev).0;
            if r != Ok then e == Effect(r, u, st) else LiveJoin(u, st, dir, i, a, e)
  {
    var o := ConnectOutcome(a.connect(i), AttachedIn(u.pool) == 0, st, u.At(i).dev);
    SoundAt(u, i);
    ConnectLaw(a.connect(i), AttachedIn(u.pool) == 0, st, u.At(i).dev);
    if o.0 == Ok {
      LinkedIsFresh(u, i, o.1);
      LinkedSound(u, i, o.1);
      SettledJoin(u, st, dir, i, Linked(u, i, o), a);
    } else {
      PutSame(u, i);
    }
  }

  /** Disconnecting AIF i: refused, only noted, given up for want of memory, or its device closed. */
  lemma LeaveLaw(u: View, st: SessState, dir: Direction, i: nat, a: Answers)
    requires u.Shape() && i < |u.pool|
    ensures var e := JoinEffect(u, st, dir, i, false, a).0;
            var attached := |set k: nat | k < |u.pool| && u.pool[k].state in ATTACHED|;
            var (d, d') := (u.devs[u.pool[i].id], e.view.devs[u.pool[i].id]);
            if u.pool[i].state in {AifClosed, AifClose} then e == Effect(Already, u, st)
            else
              && OnlyAt(u, e.view, i) && e.state == st
              && if st == SessClosed then e.r == Ok && e.view.pool[i].state == AifClosed && d' == d
                 else if !a.disconnect(i).merges || (attached == 1 && !a.disconnect(i).mergesSessAif) then
                   e.r == NoMemory && e.view.pool[i].state == AifClose && d' == d
                 else
                   && OneOpenLess(d, d')
                   && e.r == (if d.open == 1 && !a.disconnect(i).pcmCloses then DriverError else Ok)
                   && e.view.pool[i].state == (if e.r == Ok then AifClosed else AifClose)
  {
    AttachedInCounts(u.pool);
  }

  /** The AIF object of a call is looked up, or created at the end of the pool; without memory nothing happens. */
  lemma LookupLaw(v: View, st: SessState, dir: Direction, id: nat, on: bool, a: Answers)
    requires v.Shape() && id < |v.devs|
    ensures var u := WithAif(v, id);
            var i := IndexOf(u.pool, id);
            && Found(v, id, u, i)
            && LinkEffect(v, st, dir, id, on, a).0 ==
               if !Has(v.pool, id) && !a.aifMemory then Effect(NoMemory, v, st)
               else JoinEffect(u, st, dir, i, on, a).0
  {
    WithAifIndex(v, id);
    var u := WithAif(v, id);
    if !Has(v.pool, id) {
      var i := IndexOf(u.pool, id);
      assert forall k :: 0 <= k < |v.pool| ==> u.pool[k] == v.pool[k];
      assert i >= |v.pool|;
    }
  }

  /** A successful connect, by the state of the session: u is its pool with the AIF's object, at place i. */
  lemma LinkConnects(v: View, st: SessState, dir: Direction, id: nat, a: Answers) returns (u: View, i: nat)
    requires v.Shape() && v.Sound() && id < |v.devs| && LinkEffect(v, st, dir, id, true, a).0.r == Ok
    ensures Found(v, id, u, i) && u.Shape()
    ensures var e := LinkEffect(v, st, dir, id, true, a).0; JoinedOn(u, st, i, e.view, e.state)
  {
    u := WithAif(v, id);
    i := IndexOf(u.pool, id);
    LookupLaw(v, st, dir, id, true, a);
    WithAifView(v, id);
    assert u.Sound();
    JoinLaw(u, st, dir, i, a);
  }
}
