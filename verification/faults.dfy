/**
  Calls after which the books do not balance: for each way in which a call can be unclean, a new session is
  taken there call by call. The lemmas say what a single call does there, the methods make the calls.
*/
module Faults {
  import opened Common
  import opened Devices
  import opened Cells
  import opened SessionSpec
  import opened Sessions

  const CLOSED_DEV := Counters(DevClosed, 0, 0, 0, 0)
  const OPEN_DEV := Counters(DevOpened, 1, 0, 0, 1)
  const PREPARED_DEV := Counters(DevPrepared, 1, 1, 0, 1)

  // The outside as it should be.
  const CONNECTS := ConnectAnswers(true, true, true, true, true, true, true, true, true, true)
  const DISCONNECTS := DisconnectAnswers(true, true, true)
  const FINE := Answers(_ => CONNECTS, _ => DISCONNECTS, _ => true, _ => true, _ => true,
                        true, true, true, true, EdgesReady, None, true, true)

  function OneAif(s: AifState, d: Counters): View { View([Aif(0, s)], [d]) }

  lemma OneAifCell(s: AifState, d: Counters)
    ensures OneAif(s, d).Shape() && OneAif(s, d).At(0) == Cell(s, d)
    ensures OneAif(s, d).CellOf(0) == Cell(s, d)
    ensures AttachedIn(OneAif(s, d).pool) == Bit(Attached(s))
    ensures forall c: Cell :: OneAif(s, d).Put(0, c) == OneAif(c.aif, c.dev)
  {
    StateOfAt(OneAif(s, d).pool, 1, 0);
    assert AttachedIn([]) == 0 && OneAif(s, d).pool[..0] == [];
  }

  lemma OneAifSweep(s: AifState, d: Counters, op: Op)
    ensures OneAif(s, d).Shape()
    ensures var c := Apply(op, Cell(s, d)); Sweep(OneAif(s, d), All(op, 1)) == OneAif(c.aif, c.dev)
  {
    OneAifCell(s, d);
    assert All(op, 1)[..0] == [];
  }

  // ---- single calls ------------------------------------------------------------------------

  lemma FirstQueued(d: Counters, dir: Direction, a: Answers)
    requires a.aifMemory
    ensures LinkEffect(View([], [d]), SessClosed, dir, 0, true, a) ==
            (Effect(Ok, OneAif(AifOpen, d), SessClosed), Queued)
  {
    var v := View([], [d]);
    var u := OneAif(AifClosed, d);
    OneAifCell(AifClosed, d);
    WithAifIndex(v, 0);
    assert !Has(v.pool, 0) && WithAif(v, 0) == u;
    assert JoinEffect(u, SessClosed, dir, 0, true, a) == (Effect(Ok, OneAif(AifOpen, d), SessClosed), Queued);
  }

  lemma OneOpened(d: Counters, a: Answers)
    requires ConnectOutcome(a.connect(0), true, SessClosed, d) == (Ok, AfterOpen(d))
    ensures OneAif(AifOpen, d).Shape()
    ensures var (e, path) := OpenEffect(OneAif(AifOpen, d), SessClosed, a);
            && e.r == EdgeStatus(a.edges) && e.view == OneAif(AifOpened, AfterOpen(d))
            && e.state == if e.r == Ok then SessOpened else SessClosed
  {
    var v, u := OneAif(AifOpen, d), OneAif(AifOpened, AfterOpen(d));
    OneAifCell(AifOpen, d);
    OneAifCell(AifOpened, AfterOpen(d));
    OneAifSweep(AifOpened, AfterOpen(d), Op.Connect);
    assert FirstWaiting(v.pool) == 0;
    assert Linked(v, 0, (Ok, AfterOpen(d))) == u;
    assert RemainingEffect(u, SessClosed, a) == (Ok, u, Opened);
  }

  lemma OneLinked(s: AifState, d: Counters, st: SessState, dir: Direction, on: bool, a: Answers)
    ensures OneAif(s, d).Shape()
    ensures LinkEffect(OneAif(s, d), st, dir, 0, on, a) == JoinEffect(OneAif(s, d), st, dir, 0, on, a)
  {
    OneAifCell(s, d);
    assert OneAif(s, d).pool[0].id == 0;
  }

  // The guard lets a connected AIF pass, and its device is opened once more.
  lemma ConnectedAgain(d: Counters, dir: Direction, a: Answers)
    requires ConnectOutcome(a.connect(0), false, SessOpened, d) == (Ok, AfterOpen(d))
    ensures OneAif(AifOpened, d).Shape()
    ensures LinkEffect(OneAif(AifOpened, d), SessOpened, dir, 0, true, a) ==
            (Effect(Ok, OneAif(AifOpened, AfterOpen(d)), SessOpened), Connected)
  {
    OneLinked(AifOpened, d, SessOpened, dir, true, a);
    OneAifCell(AifOpened, d);
    OneAifCell(AifOpened, AfterOpen(d));
  }

  lemma OnePrepared(d: Counters, a: Answers)
    requires d.prepare != 0 || a.pcmPrepares(0)
    ensures OneAif(AifOpened, d).Shape()
    ensures PrepareEffect(OneAif(AifOpened, d), SessOpened, Unset, a) ==
            Effect(Ok, OneAif(AifPrepared, AfterPrepare(d)), SessPrepared)
  {
    OneAifCell(AifOpened, d);
    OneAifSweep(AifOpened, d, Op.Prepare);
  }

  lemma OneDisconnected(s: AifState, d: Counters, st: SessState, dir: Direction, a: Answers)
    requires Attached(s) && st != SessClosed
    ensures OneAif(s, d).Shape()
    ensures LinkEffect(OneAif(s, d), st, dir, 0, false, a) ==
            if GivesUp(a.disconnect(0), 1) then (Effect(NoMemory, OneAif(AifClose, d), st), Skipped)
            else if d.open == 1 && !a.disconnect(0).pcmCloses then
              (Effect(DriverError, OneAif(AifClose, AfterClose(d)), st), Disconnected)
            else (Effect(Ok, OneAif(AifClosed, AfterClose(d)), st), Disconnected)
  {
    OneLinked(s, d, st, dir, false, a);
    OneAifCell(s, d);
  }

  // The device of a live connect cannot be prepared: it is closed again, and the AIF stays connected.
  lemma LiveConnectUndone(d: Counters, a: Answers)
    requires ConnectOutcome(a.connect(0), true, SessPrepared, d) == (Ok, AfterOpen(d))
    requires d.prepare == 0 && !a.pcmPrepares(0) && !GivesUp(a.disconnect(0), 1)
    ensures OneAif(AifClosed, d).Shape()
    ensures LinkEffect(OneAif(AifClosed, d), SessPrepared, Unset, 0, true, a) ==
            (Effect(DriverError, OneAif(AifOpened, AfterClose(AfterOpen(d))), SessPrepared), LinkUnwound(true))
  {
    var u := OneAif(AifOpened, AfterOpen(d));
    OneLinked(AifClosed, d, SessPrepared, Unset, true, a);
    OneAifCell(AifClosed, d);
    OneAifCell(AifOpened, AfterOpen(d));
    assert PrepareReach(u, a, 1) == 0;
    SweepNone(u, Op.Prepare);
    assert PrepareEffect(u, SessPrepared, Unset, a) == Effect(DriverError, u, SessPrepared);
    assert Linked(OneAif(AifClosed, d), 0, (Ok, AfterOpen(d))) == u;
  }

  /**
    Any open whose first AIF connects and a later one does not, when everything is undone, and then graph_close
    and the edges succeed: the open is reported as a success, with the AIFs still waiting.
  */
  lemma UnwoundOpenReported(v: View, a: Answers, n: nat)
    requires v.Shape() && v.Sound() && v.NoneAttached() && FirstWaiting(v.pool) < n < |v.pool|
    requires FirstOutcome(v, SessClosed, a).0 == Ok && LaterFails(v, SessClosed, a, n)
    requires a.graphCloses && a.edges == EdgesReady && forall k :: 0 <= k < |v.pool| ==> !GivesUp(a.disconnect(k), 1)
    ensures OpenEffect(v, SessClosed, a).0 == Effect(Ok, v, SessOpened) && !Phase(v, SessOpened)
  {
    RemainingUndone(v, a, n);
    assert v.pool[n].state == AifOpen;
  }

  lemma RemainingUndone(v: View, a: Answers, n: nat)
    requires v.Shape() && v.Sound() && v.NoneAttached() && FirstWaiting(v.pool) < n < |v.pool|
    requires FirstOutcome(v, SessClosed, a).0 == Ok && LaterFails(v, SessClosed, a, n)
    requires forall k :: 0 <= k < |v.pool| ==> !GivesUp(a.disconnect(k), 1)
    ensures var u := Linked(v, FirstWaiting(v.pool), FirstOutcome(v, SessClosed, a));
            var e := RemainingEffect(u, SessClosed, a);
            e.0 == GraphStatus(a.graphCloses) && e.1 == v && e.2.OpenUnwound?
  {
    var u := Linked(v, FirstWaiting(v.pool), FirstOutcome(v, SessClosed, a));
    FailsAfterFirst(v, a, n);
    RemainingView(v, a);
    var e := RemainingEffect(u, SessClosed, a);
    assert Leak !in e.2.ops by { NoLeak(Stranded(u, SessClosed, a, e.2.n), a); }
    UnwindRestores(v, e.2.n, e.2.ops);
  }

  lemma NoLeak(v: View, a: Answers)
    requires forall k :: 0 <= k < |v.pool| ==> !GivesUp(a.disconnect(k), 1)
    ensures Leak !in UnwindOps(v, a, |v.pool|)
  {}

  lemma FailsAfterFirst(v: View, a: Answers, n: nat)
    requires v.Shape() && v.Sound() && FirstWaiting(v.pool) < n < |v.pool|
    requires FirstOutcome(v, SessClosed, a).0 == Ok && LaterFails(v, SessClosed, a, n)
    ensures var u := Linked(v, FirstWaiting(v.pool), FirstOutcome(v, SessClosed, a));
            u.Shape() && ConnectReach(u, SessClosed, a, |u.pool|) <= n
  {
    var u := Linked(v, FirstWaiting(v.pool), FirstOutcome(v, SessClosed, a));
    FirstLinked(v, SessClosed, a);
    PutAt(v, FirstWaiting(v.pool), Apply(Op.Connect, v.At(FirstWaiting(v.pool))));
    assert u.At(n) == v.At(n);
    assert LaterFails(u, SessClosed, a, n);
  }

  function TwoWaiting(): View { View([Aif(0, AifOpen), Aif(1, AifOpen)], [CLOSED_DEV, CLOSED_DEV]) }

  lemma TwoWaitingSound()
    ensures var v := TwoWaiting(); v.Shape() && v.Sound() && v.NoneAttached() && FirstWaiting(v.pool) == 0
  {
    var v := TwoWaiting();
    forall j | 0 <= j < |v.devs| ensures v.CellOf(j).Sound() {
      StateOfAt(v.pool, 2, j);
    }
  }

  lemma FirstOfTwoQueued(d: Counters, a: Answers)
    requires a.aifMemory
    ensures LinkEffect(View([], [d, d]), SessClosed, Unset, 0, true, a).0 ==
            Effect(Ok, View([Aif(0, AifOpen)], [d, d]), SessClosed)
  {
    var v := View([], [d, d]);
    WithAifIndex(v, 0);
    assert v.devs[0 := d] == v.devs && WithAif(v, 0) == View([Aif(0, AifClosed)], [d, d]);
  }

  lemma SecondQueued(d: Counters, a: Answers)
    requires a.aifMemory
    ensures View([Aif(0, AifOpen)], [d, d]).Shape()
    ensures LinkEffect(View([Aif(0, AifOpen)], [d, d]), SessClosed, Unset, 1, true, a).0 ==
            Effect(Ok, View([Aif(0, AifOpen), Aif(1, AifOpen)], [d, d]), SessClosed)
  {
    var v := View([Aif(0, AifOpen)], [d, d]);
    WithAifIndex(v, 1);
    assert v.devs[1 := d] == v.devs && WithAif(v, 1) == View([Aif(0, AifOpen), Aif(1, AifClosed)], [d, d]);
  }

  // ---- the runs ----------------------------------------------------------------------------

  method NewSession() returns (s: Session)
    ensures fresh(s) && fresh(s.devices) && s.Valid()
    ensures s.View() == View([], [CLOSED_DEV]) && s.state == SessClosed && s.dir == Unset
  {
    var d := new Device();
    s := new Session(0, [d]);
  }

  method QueueOne() returns (s: Session)
    ensures fresh(s) && fresh(s.devices) && s.Valid()
    ensures s.View() == OneAif(AifOpen, CLOSED_DEV) && s.state == SessClosed && s.dir == Unset
  {
    s := NewSession();
    FirstQueued(CLOSED_DEV, Unset, FINE);
    var _ := s.SetAif(0, true, FINE);
  }

  method OpenSession() returns (s: Session)
    ensures fresh(s) && fresh(s.devices) && s.Valid()
    ensures s.View() == OneAif(AifOpened, OPEN_DEV) && s.state == SessOpened && s.dir == Unset
  {
    s := QueueOne();
    OneOpened(CLOSED_DEV, FINE);
    var _ := s.Open(FINE);
  }

  /** Connecting a connected AIF again opens its device twice for a single attachment. */
  method ConnectedTwice() returns (s: Session, r: Status)
    ensures r == Ok && s.View() == OneAif(AifOpened, OPEN_DEV.(open := 2)) && s.state == SessOpened
  {
    s := OpenSession();
    ConnectedAgain(OPEN_DEV, Unset, FINE);
    r := s.SetAif(0, true, FINE);
  }

  const NO_PREPARE := FINE.(pcmPrepares := _ => false)

  method PrepareSession() returns (s: Session)
    ensures fresh(s) && fresh(s.devices) && s.Valid()
    ensures s.View() == OneAif(AifPrepared, PREPARED_DEV) && s.state == SessPrepared && s.dir == Unset
  {
    s := OpenSession();
    OnePrepared(OPEN_DEV, FINE);
    var _ := s.Prepare(FINE);
  }

  method DisconnectPrepared() returns (s: Session)
    ensures fresh(s) && fresh(s.devices) && s.Valid()
    ensures s.View() == OneAif(AifClosed, CLOSED_DEV) && s.state == SessPrepared && s.dir == Unset
  {
    s := PrepareSession();
    OneDisconnected(AifPrepared, PREPARED_DEV, SessPrepared, Unset, FINE);
    var _ := s.SetAif(0, false, FINE);
  }

  /** Prepare fails for a freshly connected AIF: its device is closed, yet the AIF stays connected. */
  method UndoneConnectStaysConnected() returns (s: Session, r: Status)
    ensures r == DriverError && s.View() == OneAif(AifOpened, CLOSED_DEV) && s.state == SessPrepared
  {
    s := DisconnectPrepared();
    LiveConnectUndone(CLOSED_DEV, NO_PREPARE);
    r := s.SetAif(0, true, NO_PREPARE);
  }

  const NO_MERGE := FINE.(disconnect := _ => DISCONNECTS.(merges := false))

  /** Without memory for the merged metadata a disconnect leaves the device open behind a closed AIF. */
  method SkippedDisconnectLeaks() returns (s: Session, r: Status)
    ensures r == NoMemory && s.View() == OneAif(AifClose, OPEN_DEV) && s.state == SessOpened
  {
    s := OpenSession();
    OneDisconnected(AifOpened, OPEN_DEV, SessOpened, Unset, NO_MERGE);
    r := s.SetAif(0, false, NO_MERGE);
  }

  const NO_EDGES := FINE.(edges := EdgesFail)

  /** Loopback set-up fails after the devices were opened: the session is closed with an AIF connected. */
  method FailedEdgesLeaveDevicesOpen() returns (s: Session, r: Status)
    ensures r == GraphError && s.View() == OneAif(AifOpened, OPEN_DEV) && s.state == SessClosed
  {
    s := QueueOne();
    OneOpened(CLOSED_DEV, NO_EDGES);
    r := s.Open(NO_EDGES);
  }

  const SECOND_FAILS := FINE.(connect := k => if k == 1 then CONNECTS.(pcmOpens := false) else CONNECTS)

  method QueueTwo() returns (s: Session)
    ensures fresh(s) && fresh(s.devices) && s.Valid()
    ensures s.View() == TwoWaiting() && s.state == SessClosed
  {
    var d := new Device();
    var e := new Device();
    s := new Session(0, [d, e]);
    assert s.View() == View([], [CLOSED_DEV, CLOSED_DEV]);
    FirstOfTwoQueued(CLOSED_DEV, FINE);
    var _ := s.SetAif(0, true, FINE);
    SecondQueued(CLOSED_DEV, FINE);
    var _ := s.SetAif(1, true, FINE);
  }

  /** The second of two AIFs fails to connect: the session is open, both AIFs still wait, and no device is open. */
  method FailedOpenReportedAsSuccess() returns (s: Session, r: Status)
    ensures r == Ok && s.View() == TwoWaiting() && s.state == SessOpened
  {
    s := QueueTwo();
    TwoWaitingSound();
    UnwoundOpenReported(TwoWaiting(), SECOND_FAILS, 1);
    r := s.Open(SECOND_FAILS);
  }
}
