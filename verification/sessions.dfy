/** The calls on one session (service/src/session_obj.c), each a loop or a sequence of steps over its AIF pool. */
module Sessions {
  import opened Common
  import opened Devices
  import opened Cells
  import opened SessionSpec

  class Session {
    const id: nat
    const devices: seq<Device>  // the global device list; an AIF's id is its device's index
    var state: SessState
    var dir: Direction
    var pool: seq<Aif>

    ghost function View(): View
      reads this`pool, devices
    {
      Cells.View(pool, seq(|devices|, j requires 0 <= j < |devices| reads devices => devices[j].Snapshot()))
    }

    ghost predicate Valid()
      reads this`pool
    {
      && (forall i, j :: 0 <= i < j < |devices| ==> devices[i] != devices[j])
      && Unique(pool, |devices|)
    }

    /** A return code together with what the session and the devices now are. */
    ghost function Result(r: Status): Effect
      reads this`pool, this`state, devices
    {
      Effect(r, View(), state)
    }

    constructor (id: nat, devices: seq<Device>)
      requires forall i, j :: 0 <= i < j < |devices| ==> devices[i] != devices[j]
      ensures Valid() && this.id == id && this.devices == devices
      ensures state == SessClosed && pool == [] && dir == Unset
    {
      this.id := id;
      this.devices := devices;
      state, dir, pool := SessClosed, Unset, [];
    }

    // ---- one AIF ---------------------------------------------------------------------------

    method SetAifState(i: nat, s: AifState)
      requires Valid() && i < |pool|
      modifies this`pool
      ensures Valid() && View() == old(View()).Put(i, Cell(s, old(View()).At(i).dev))
    {
      pool := pool[i := pool[i].(state := s)];
    }

    method PrepareAif(i: nat, pcmPrepares: bool) returns (r: Status)
      requires Valid() && i < |pool|
      modifies this`pool, devices
      ensures Valid() && r == if PrepareFails(old(View()).At(i), pcmPrepares) then DriverError else Ok
      ensures View() == if r == Ok then old(View()).Put(i, Apply(Op.Prepare, old(View()).At(i))) else old(View())
    {
      r := Ok;
      if pool[i].state == AifOpened || pool[i].state == AifStopped {
        r := devices[pool[i].id].Prepare(pcmPrepares);
        if r == Ok {
          pool := pool[i := pool[i].(state := AifPrepared)];
        }
      }
    }

    method StartAif(i: nat) returns (r: Status)
      requires Valid() && i < |pool|
      modifies this`pool, devices
      ensures Valid()
      ensures r == if StuckAt(old(View()), i) then NotPrepared else Ok
      ensures View() == if r == Ok then old(View()).Put(i, Apply(Op.Start, old(View()).At(i))) else old(View())
    {
      r := Ok;
      if pool[i].state == AifOpened || pool[i].state == AifPrepared || pool[i].state == AifStopped {
        r := devices[pool[i].id].Start();
        if r == Ok {
          pool := pool[i := pool[i].(state := AifStarted)];
        }
      }
    }

    // A started AIF is stopped and goes to its next state, whatever the driver answers.
    method StopIfStarted(i: nat, op: Op, pcmStops: bool, before: Status) returns (r: Status)
      requires Valid() && i < |pool| && (op == Op.Stop || op == Op.Unstart)
      modifies this`pool, devices
      ensures var c := old(View()).At(i);
              && Valid() && View() == old(View()).Put(i, Apply(op, c))
              && r == if c.aif != AifStarted then before
                      else if c.dev.start == 1 && !pcmStops then DriverError else Ok
    {
      if pool[i].state == AifStarted {
        r := devices[pool[i].id].Stop(pcmStops);
        pool := pool[i := pool[i].(state := if op == Op.Stop then AifStopped else AifOpened)];
      } else {
        PutSame(View(), i);
        r := before;
      }
    }

    method CloseIfAttached(i: nat, pcmCloses: bool, before: Status) returns (r: Status)
      requires Valid() && i < |pool|
      modifies this`pool, devices
      ensures var c := old(View()).At(i);
              && Valid() && View() == old(View()).Put(i, Apply(Op.Close, c))
              && r == if !Attached(c.aif) then before
                      else if c.dev.open == 1 && !pcmCloses then DriverError else Ok
    {
      if Rank(pool[i].state) >= Rank(AifOpened) {
        r := devices[pool[i].id].Close(pcmCloses);
        pool := pool[i := pool[i].(state := AifClosed)];
      } else {
        PutSame(View(), i);
        r := before;
      }
    }

    method CountAttached() returns (count: nat)
      requires Valid()
      ensures count == AttachedIn(pool) && (count == 0 <==> View().NoneAttached())
    {
      count := 0;
      for i := 0 to |pool|
        invariant count == AttachedIn(pool[..i])
      {
        assert pool[..i + 1][..i] == pool[..i];
        if Rank(pool[i].state) >= Rank(AifOpened) {
          count := count + 1;
        }
      }
      assert pool[..|pool|] == pool;
      AttachedInNone(View());
    }

    // ---- prepare, start, stop, close -------------------------------------------------------

    method PrepareAifs(a: Answers) returns (r: Status, ghost n: nat)
      requires Valid()
      modifies this`pool, devices
      ensures Valid() && n == PrepareReach(old(View()), a, |old(pool)|)
      ensures r == if n < |old(pool)| then DriverError else Ok
      ensures View() == Sweep(old(View()), All(Op.Prepare, n))
    {
      ghost var v := View();
      var i := 0;
      while i < |pool|
        invariant 0 <= i <= PrepareReach(v, a, |v.pool|) && |pool| == |v.pool| && Valid()
        invariant View() == Sweep(v, All(Op.Prepare, i))
      {
        SweepCell(v, All(Op.Prepare, i), i);
        r := PrepareAif(i, a.pcmPrepares(i));
        assert r != Ok <==> PrepareFails(v.At(i), a.pcmPrepares(i));
        if r != Ok {
          return r, i;
        }
        SweepStep(v, All(Op.Prepare, i), Op.Prepare);
        AllStep(Op.Prepare, i);
        i := i + 1;
      }
      return Ok, i;
    }

    method PrepareDevices(a: Answers) returns (r: Status)
      requires Valid()
      modifies this`state, this`pool, devices
      ensures Valid() && Result(r) == PrepareDevicesEffect(old(View()), old(state), dir, a)
    {
      ghost var n;
      r, n := PrepareAifs(a);
      if r != Ok {
        return;
      }
      if dir == RX && state != SessStarted {
        if !a.graphPrepares {
          return GraphError;
        }
      }
      state := SessPrepared;
    }

    method Prepare(a: Answers) returns (r: Status)
      requires Valid()
      modifies this`state, this`pool, devices
      ensures Valid() && Result(r) == PrepareEffect(old(View()), old(state), dir, a)
    {
      var count := CountAttached();
      if count == 0 {
        return NoInterface;
      }
      if dir == TX && state != SessStarted {
        if !a.graphPrepares {
          return GraphError;
        }
      }
      r := PrepareDevices(a);
    }

    method StartAifs() returns (r: Status, ghost n: nat)
      requires Valid()
      modifies this`pool, devices
      ensures Valid() && n == StartReach(old(View()), |old(pool)|)
      ensures r == if n < |old(pool)| then NotPrepared else Ok
      ensures View() == Sweep(old(View()), All(Op.Start, n))
    {
      ghost var v := View();
      var i := 0;
      while i < |pool|
        invariant 0 <= i <= StartReach(v, |v.pool|) && |pool| == |v.pool| && Valid()
        invariant View() == Sweep(v, All(Op.Start, i))
      {
        SweepCell(v, All(Op.Start, i), i);
        r := StartAif(i);
        assert r != Ok <==> StuckAt(v, i);
        if r != Ok {
          return r, i;
        }
        SweepStep(v, All(Op.Start, i), Op.Start);
        AllStep(Op.Start, i);
        i := i + 1;
      }
      return Ok, i;
    }

    method StopAifs(op: Op, a: Answers) returns (r: Status)
      requires Valid() && (op == Op.Stop || op == Op.Unstart)
      modifies this`pool, devices
      ensures Valid() && r == StopStatus(old(View()), a, |old(pool)|)
      ensures View() == Sweep(old(View()), All(op, |old(pool)|))
    {
      ghost var v := View();
      r := Ok;
      var i := 0;
      while i < |pool|
        invariant 0 <= i <= |pool| == |v.pool| && Valid() && r == StopStatus(v, a, i)
        invariant View() == Sweep(v, All(op, i))
      {
        SweepCell(v, All(op, i), i);
        r := StopIfStarted(i, op, a.pcmStops(i), r);
        SweepStep(v, All(op, i), op);
        AllStep(op, i);
        i := i + 1;
      }
    }

    // The part of a start that has to be undone when it fails.
    method Launch(a: Answers) returns (r: Status)
      requires Valid()
      modifies this`state, this`pool, devices
      ensures Valid() && Result(r) == LaunchEffect(old(View()), old(state), dir, a)
    {
      ghost var n;
      r, n := StartAifs();
      if r == Ok && dir == RX && !a.graphStarts {
        r := GraphError;
      }
      if r == Ok {
        state := SessStarted;
      } else {
        var _ := StopAifs(Op.Unstart, a);
      }
    }

    method Start(a: Answers) returns (r: Status)
      requires Valid()
      modifies this`state, this`pool, devices
      ensures Valid() && Result(r) == StartEffect(old(View()), old(state), dir, a)
    {
      var count := CountAttached();
      if count == 0 {
        return NoInterface;
      }
      if dir == TX {
        // loopback needs a started playback session, echo reference a started device
        if a.edges != EdgesReady {
          return EdgeStatus(a.edges);
        }
        if !a.graphStarts {
          return GraphError;
        }
      }
      r := Launch(a);
    }

    method Stop(a: Answers) returns (r: Status)
      requires Valid()
      modifies this`state, this`pool, devices
      ensures Valid() && Result(r) == StopEffect(old(View()), old(state), dir, a)
    {
      if state != SessStarted {
        return Invalid;
      }
      if dir == RX {
        if !a.graphStops {
          return GraphError;
        }
      }
      r := StopAifs(Op.Stop, a);
      if dir == TX {
        r := GraphStatus(a.graphStops);
      }
      state := SessStopped;
    }

    // Answers with the last device's code, or graph_close's when there was no device.
    method CloseAifs(a: Answers) returns (r: Status)
      requires Valid()
      modifies this`pool, devices
      ensures Valid() && r == CloseStatus(old(View()), a, |old(pool)|)
      ensures View() == Sweep(old(View()), All(Op.Close, |old(pool)|))
    {
      ghost var v := View();
      r := GraphStatus(a.graphCloses);
      var i := 0;
      while i < |pool|
        invariant 0 <= i <= |pool| == |v.pool| && Valid() && r == CloseStatus(v, a, i)
        invariant View() == Sweep(v, All(Op.Close, i))
      {
        SweepCell(v, All(Op.Close, i), i);
        r := CloseIfAttached(i, a.pcmCloses(i), r);
        SweepStep(v, All(Op.Close, i), Op.Close);
        AllStep(Op.Close, i);
        i := i + 1;
      }
    }

    method Close(a: Answers) returns (r: Status)
      requires Valid()
      modifies this`state, this`pool, devices
      ensures Valid() && Result(r) == CloseEffect(old(View()), old(state), a)
    {
      if state == SessClosed {
        return Already;
      }
      r := CloseAifs(a);
      state := SessClosed;
    }

    // ---- connecting and disconnecting ------------------------------------------------------

    // The graph clean-up that goes with a failed connect changes no state here.
    method ConnectAif(i: nat, openedCount: nat, a: ConnectAnswers) returns (r: Status)
      requires Valid() && i < |pool|
      modifies devices
      ensures var o := ConnectOutcome(a, openedCount == 0, state, old(View()).At(i).dev);
              r == o.0 && View() == old(View()).Put(i, Cell(pool[i].state, o.1))
    {
      ghost var v := View();
      PutSame(v, i);
      if !a.merges {
        return NoMemory;
      }
      r := devices[pool[i].id].Open(a.pcmOpens);
      if r != Ok {
        assert View() == v;
        return;
      }
      var graphDone;
      if openedCount == 0 {
        if state == SessClosed {
          graphDone := a.graphOpens && a.registers;
        } else {
          graphDone := a.graphChanges;
        }
      } else {
        graphDone := a.graphAdds;
      }
      if state == SessClosed {
        graphDone := graphDone && a.sessParams;
      }
      graphDone := graphDone && a.aifParams;
      if devices[pool[i].id].state == DevOpened {
        graphDone := graphDone && a.devParams;
      }
      if !graphDone {
        var _ := devices[pool[i].id].Close(a.pcmCloses);
        r := GraphError;
      }
    }

    // Without memory for the merged metadata the device stays open.
    method DisconnectAif(i: nat, openedCount: nat, a: DisconnectAnswers) returns (r: Status)
      requires Valid() && i < |pool|
      modifies devices
      ensures r == if GivesUp(a, openedCount) then NoMemory
                   else if old(View()).At(i).dev.open == 1 && !a.pcmCloses then DriverError
                   else Ok
      ensures View() == if r == NoMemory then old(View()) else old(View()).Put(i, Closing(old(View()).At(i)))
    {
      if !a.merges {
        return NoMemory;
      }
      if openedCount == 1 && !a.mergesSessAif {
        return NoMemory;
      }
      // the answer of graph_stop or graph_remove is overwritten here
      r := devices[pool[i].id].Close(a.pcmCloses);
    }

    // ---- opening ---------------------------------------------------------------------------

    method ConnectWaiting(i: nat, openedCount: nat, a: ConnectAnswers) returns (r: Status)
      requires Valid() && i < |pool|
      modifies this`pool, devices
      ensures var o := ConnectOutcome(a, openedCount == 0, state, old(View()).At(i).dev);
              Valid() && r == o.0 && View() == Linked(old(View()), i, o)
    {
      ghost var v := View();
      r := ConnectAif(i, openedCount, a);
      if r == Ok {
        ghost var o := ConnectOutcome(a, openedCount == 0, state, v.At(i).dev);
        SetAifState(i, AifOpened);
        PutAgain(v, i, Cell(v.pool[i].state, o.1), Cell(AifOpened, o.1));
      }
    }

    method OpenWithFirstDevice(a: Answers) returns (r: Status)
      requires Valid()
      modifies this`pool, devices
      ensures Valid()
      ensures if FirstWaiting(old(pool)) == |old(pool)| then r == NoInterface && View() == old(View())
              else
                var o := FirstOutcome(old(View()), state, a);
                r == o.0 && View() == Linked(old(View()), FirstWaiting(old(pool)), o)
    {
      var i := 0;
      while i < |pool| && pool[i].state != AifOpen
        invariant i <= |pool| && forall k :: 0 <= k < i ==> pool[k].state != AifOpen
      {
        i := i + 1;
      }
      assert i == FirstWaiting(pool);
      if i == |pool| {
        return NoInterface;
      }
      r := ConnectWaiting(i, 0, a.connect(i));
    }

    // A disconnect that finds no memory leaves its device open.
    method UnwindAif(i: nat, a: DisconnectAnswers)
      requires Valid() && i < |pool|
      modifies this`pool, devices
      ensures Valid()
      ensures var c := old(View()).At(i); View() == old(View()).Put(i, Apply(UnwindOp(c.aif, a), c))
    {
      ghost var v := View();
      if pool[i].state == AifOpened {
        var _ := DisconnectAif(i, 1, a);
        SetAifState(i, AifOpen);
        PutAgain(v, i, Closing(v.At(i)), Cell(AifOpen, AfterClose(v.At(i).dev)));
      } else {
        PutSame(v, i);
      }
    }

    method UnwindOpen(a: Answers)
      requires Valid()
      modifies this`pool, devices
      ensures Valid() && View() == Sweep(old(View()), UnwindOps(old(View()), a, |old(pool)|))
    {
      ghost var v := View();
      var i := 0;
      while i < |pool|
        invariant 0 <= i <= |pool| == |v.pool| && Valid()
        invariant View() == Sweep(v, UnwindOps(v, a, i))
      {
        SweepCell(v, UnwindOps(v, a, i), i);
        UnwindAif(i, a.disconnect(i));
        SweepStep(v, UnwindOps(v, a, i), UnwindOp(v.pool[i].state, a.disconnect(i)));
        assert UnwindOps(v, a, i) + [UnwindOp(v.pool[i].state, a.disconnect(i))] == UnwindOps(v, a, i + 1);
        i := i + 1;
      }
    }

    // Connects AIF i if it waits.
    method ConnectIfWaiting(i: nat, openedCount: nat, a: ConnectAnswers) returns (r: Status, connected: bool)
      requires Valid() && i < |pool| && openedCount >= 1
      modifies this`pool, devices
      ensures var c := old(View()).At(i);
              var o := ConnectOutcome(a, false, state, c.dev);
              && Valid() && (connected <==> r == Ok && c.aif == AifOpen)
              && r == (if c.aif == AifOpen then o.0 else Ok)
              && View() == if r == Ok then old(View()).Put(i, Apply(Op.Connect, c)) else Linked(old(View()), i, o)
    {
      if pool[i].state == AifOpen {
        r := ConnectWaiting(i, openedCount, a);
        connected := r == Ok;
      } else {
        PutSame(View(), i);
        r, connected := Ok, false;
      }
    }

    // Goes through the pool until a connect fails.
    method ConnectAllWaiting(a: Answers) returns (r: Status, ghost n: nat)
      requires Valid()
      modifies this`pool, devices
      ensures Valid() && n == ConnectReach(old(View()), state, a, |old(pool)|)
      ensures r == Ok <==> n == |old(pool)|
      ensures View() == if n < |old(pool)| then Stranded(old(View()), state, a, n)
                        else Sweep(old(View()), All(Op.Connect, n))
    {
      ghost var v := View();
      var openedCount := 1;
      var i := 0;
      while i < |pool|
        invariant 0 <= i <= ConnectReach(v, state, a, |v.pool|) && |pool| == |v.pool| && Valid()
        invariant View() == Sweep(v, All(Op.Connect, i)) && openedCount >= 1
      {
        SweepCell(v, All(Op.Connect, i), i);
        var connected;
        r, connected := ConnectIfWaiting(i, openedCount, a.connect(i));
        assert LaterFails(v, state, a, i) <==> r != Ok;
        if r != Ok {
          return r, i;
        }
        if connected {
          openedCount := openedCount + 1;
        }
        SweepStep(v, All(Op.Connect, i), Op.Connect);
        AllStep(Op.Connect, i);
        i := i + 1;
      }
      return Ok, i;
    }

    // The answer of an unwound open is that of graph_close, so it may well be Ok.
    method ConnectRemainingDevices(a: Answers) returns (r: Status)
      requires Valid()
      modifies this`pool, devices
      ensures var e := RemainingEffect(old(View()), state, a);
              Valid() && r == e.0 && View() == e.1
    {
      ghost var n;
      r, n := ConnectAllWaiting(a);
      if r != Ok {
        UnwindOpen(a);
        r := GraphStatus(a.graphCloses);
      }
    }

    // The further devices, then loopback and echo reference.
    method FinishOpen(a: Answers) returns (r: Status)
      requires Valid() && state == SessClosed
      modifies this`state, this`pool, devices
      ensures Valid() && Result(r) == Finished(RemainingEffect(old(View()), SessClosed, a), a).0
    {
      r := ConnectRemainingDevices(a);
      if r != Ok {
        return;
      }
      if a.edges != EdgesReady {
        return EdgeStatus(a.edges);
      }
      state := SessOpened;
    }

    method Open(a: Answers) returns (r: Status)
      requires Valid()
      modifies this`state, this`pool, devices
      ensures Valid() && Result(r) == OpenEffect(old(View()), old(state), a).0
    {
      if state != SessClosed {
        return Already;
      }
      r := OpenWithFirstDevice(a);
      if r == Ok {
        r := FinishOpen(a);
      }
    }

    // ---- connecting and disconnecting a single AIF -----------------------------------------

    method GetAif(id: nat, memory: bool) returns (r: Status, i: nat)
      requires Valid() && id < |devices|
      modifies this`pool
      ensures Valid() && r == if Has(old(pool), id) || memory then Ok else NoMemory
      ensures View() == if r == Ok then WithAif(old(View()), id) else old(View())
      ensures r == Ok ==> i == IndexOf(pool, id) < |pool|
    {
      WithAifIndex(View(), id);
      i := 0;
      while i < |pool|
        invariant i <= |pool| && forall k :: 0 <= k < i ==> pool[k].id != id
      {
        if pool[i].id == id {
          return Ok, i;
        }
        i := i + 1;
      }
      if !memory {
        return NoMemory, 0;
      }
      pool := pool + [Aif(id, AifClosed)];
      return Ok, i;
    }

    // A connected AIF catches up with the session, as far as it gets.
    method CatchUp(a: Answers) returns (r: Status)
      requires Valid()
      modifies this`state, this`pool, devices
      ensures Valid() && Result(r) == CatchUpEffect(old(View()), old(state), dir, a)
    {
      if state == SessOpened {
        return Ok;
      }
      var started := state == SessStarted;
      r := Prepare(a);
      if r != Ok || !started {
        return;
      }
      r := Start(a);
    }

    method Connect(i: nat, openedCount: nat, a: Answers) returns (r: Status)
      requires Valid() && i < |pool| && openedCount == AttachedIn(pool)
      modifies this`state, this`pool, devices
      ensures Valid() && Result(r) == ConnectEffect(old(View()), old(state), dir, i, a).0
    {
      if state == SessClosed {
        SetAifState(i, AifOpen);
        return Ok;
      }
      r := ConnectWaiting(i, openedCount, a.connect(i));
      if r != Ok {
        return;
      }
      r := CatchUp(a);
      if r != Ok {
        var _ := DisconnectAif(i, openedCount + 1, a.disconnect(i));
      }
    }

    method Disconnect(i: nat, openedCount: nat, a: Answers) returns (r: Status)
      requires Valid() && i < |pool| && openedCount == AttachedIn(pool)
      modifies this`pool, devices
      ensures Valid() && Result(r) == DisconnectEffect(old(View()), state, i, a).0
    {
      ghost var v := View();
      ghost var dev := v.At(i).dev;
      SetAifState(i, AifClose);
      PutAgain(v, i, Cell(AifClose, dev), Cell(AifClosed, dev));
      PutAgain(v, i, Cell(AifClose, dev), Cell(AifClose, AfterClose(dev)));
      if state != SessClosed {
        r := DisconnectAif(i, openedCount, a.disconnect(i));
        if r != Ok {
          return;
        }
        PutAgain(v, i, Cell(AifClose, AfterClose(dev)), Cell(AifClosed, AfterClose(dev)));
      }
      SetAifState(i, AifClosed);
      r := Ok;
    }

    method Join(i: nat, on: bool, a: Answers) returns (r: Status)
      requires Valid() && i < |pool|
      modifies this`state, this`pool, devices
      ensures Valid() && Result(r) == JoinEffect(old(View()), old(state), dir, i, on, a).0
    {
      if (on && Rank(pool[i].state) > Rank(AifOpened)) || (!on && Rank(pool[i].state) < Rank(AifOpen)) {
        return Already;
      }
      var openedCount := CountAttached();
      if on {
        r := Connect(i, openedCount, a);
      } else {
        r := Disconnect(i, openedCount, a);
      }
    }

    /** session_obj_sess_aif_connect */
    method SetAif(id: nat, on: bool, a: Answers) returns (r: Status)
      requires Valid() && id < |devices|
      modifies this`state, this`pool, devices
      ensures Valid() && Result(r) == LinkEffect(old(View()), old(state), dir, id, on, a).0
    {
      WithAifIndex(View(), id);
      var i;
      r, i := GetAif(id, a.aifMemory);
      if r == Ok {
        r := Join(i, on, a);
      }
    }
  }
}
