/** What the calls on one session do to its pool and the devices, as functions on values. */
module SessionSpec {
  import opened Common
  import opened Devices
  import opened Cells

  datatype SessState = SessClosed | SessOpened | SessPrepared | SessStarted | SessStopped

  // A closed session has nothing attached; any other session has nothing waiting to be opened.
  ghost predicate Phase(v: View, st: SessState) {
    if st == SessClosed then v.NoneAttached()
    else forall k :: 0 <= k < |v.pool| ==> v.pool[k].state != AifOpen
  }

  // ---- what the outside answers ------------------------------------------------------------

  /** During one connect of an AIF: the allocator, the driver and the graph library. */
  datatype ConnectAnswers = ConnectAnswers(
    merges: bool, pcmOpens: bool, graphOpens: bool, registers: bool, graphChanges: bool, graphAdds: bool,
    sessParams: bool, aifParams: bool, devParams: bool, pcmCloses: bool)

  datatype DisconnectAnswers = DisconnectAnswers(merges: bool, mergesSessAif: bool, pcmCloses: bool)

  // Loopback and echo reference: set up, or without memory, refused, or failed in the graph.
  datatype EdgeAnswer = EdgesReady | NoEdgeMemory | EdgesRefused | EdgesFail

  /**
    During one call. An AIF is asked about by its place in the pool, and never twice for the same thing.
    playback: the session of a loopback, if the call gets as far as looking it up.
  */
  datatype Answers = Answers(
    connect: nat -> ConnectAnswers, disconnect: nat -> DisconnectAnswers,
    pcmPrepares: nat -> bool, pcmStops: nat -> bool, pcmCloses: nat -> bool,
    graphPrepares: bool, graphStarts: bool, graphStops: bool, graphCloses: bool,
    edges: EdgeAnswer, playback: Option<nat>, aifMemory: bool, sessionMemory: bool)

  function GraphStatus(ok: bool): Status { if ok then Ok else GraphError }

  function EdgeStatus(e: EdgeAnswer): Status {
    match e
    case EdgesReady => Ok
    case NoEdgeMemory => NoMemory
    case EdgesRefused => Invalid
    case EdgesFail => GraphError
  }

  /** A call's return code, and what it leaves behind. */
  datatype Effect = Effect(r: Status, view: View, state: SessState)

  ghost predicate SameSize(v: View, w: View) {
    w.Shape() && |w.pool| == |v.pool| && |w.devs| == |v.devs|
  }

  // ---- prepare, start, stop, close ---------------------------------------------------------

  predicate PrepareFails(c: Cell, pcmPrepares: bool) {
    (c.aif == AifOpened || c.aif == AifStopped) && c.dev.prepare == 0 && !pcmPrepares
  }

  // The first of n AIFs whose device cannot be prepared, or else n.
  ghost function PrepareReach(v: View, a: Answers, n: nat): (k: nat)
    requires v.Shape() && n <= |v.pool|
    ensures k <= n && (k < n ==> PrepareFails(v.At(k), a.pcmPrepares(k)))
    ensures forall l :: 0 <= l < k ==> !PrepareFails(v.At(l), a.pcmPrepares(l))
  {
    if n == 0 then 0
    else
      var k := PrepareReach(v, a, n - 1);
      if k < n - 1 || PrepareFails(v.At(n - 1), a.pcmPrepares(n - 1)) then k else n
  }

  // The devices, and for playback the graph after them.
  ghost function PrepareDevicesEffect(v: View, st: SessState, dir: Direction, a: Answers): (e: Effect)
    requires v.Shape()
    ensures SameSize(v, e.view)
  {
    var n := PrepareReach(v, a, |v.pool|);
    var w := Sweep(v, All(Op.Prepare, n));
    if n < |v.pool| then Effect(DriverError, w, st)
    else if dir == RX && st != SessStarted && !a.graphPrepares then Effect(GraphError, w, st)
    else Effect(Ok, w, SessPrepared)
  }

  ghost function PrepareEffect(v: View, st: SessState, dir: Direction, a: Answers): (e: Effect)
    requires v.Shape()
    ensures SameSize(v, e.view)
  {
    if v.NoneAttached() then Effect(NoInterface, v, st)
    else if dir == TX && st != SessStarted && !a.graphPrepares then Effect(GraphError, v, st)
    else PrepareDevicesEffect(v, st, dir, a)
  }

  // device_start would refuse AIF k.
  ghost predicate StuckAt(v: View, k: nat)
    requires v.Shape() && k < |v.pool|
  {
    Startable(v.At(k).aif) && StartRefused(v.At(k).dev)
  }

  ghost function StartReach(v: View, n: nat): (k: nat)
    requires v.Shape() && n <= |v.pool|
    ensures k <= n && (k < n ==> StuckAt(v, k))
    ensures forall l :: 0 <= l < k ==> !StuckAt(v, l)
  {
    if n == 0 then 0
    else
      var k := StartReach(v, n - 1);
      if k < n - 1 || StuckAt(v, n - 1) then k else n
  }

  // A start that got as far as AIF n and was then undone.
  ghost function Restarted(v: View, n: nat): View
    requires v.Shape() && n <= |v.pool|
  {
    Sweep(Sweep(v, All(Op.Start, n)), All(Op.Unstart, |v.pool|))
  }

  // The part of a start that is undone when it fails.
  ghost function LaunchEffect(v: View, st: SessState, dir: Direction, a: Answers): (e: Effect)
    requires v.Shape()
    ensures SameSize(v, e.view)
  {
    var n := StartReach(v, |v.pool|);
    if n < |v.pool| then Effect(NotPrepared, Restarted(v, n), st)
    else if dir == RX && !a.graphStarts then Effect(GraphError, Restarted(v, n), st)
    else Effect(Ok, Sweep(v, All(Op.Start, n)), SessStarted)
  }

  ghost function StartEffect(v: View, st: SessState, dir: Direction, a: Answers): (e: Effect)
    requires v.Shape()
    ensures SameSize(v, e.view)
  {
    if v.NoneAttached() then Effect(NoInterface, v, st)
    else if dir == TX && a.edges != EdgesReady then Effect(EdgeStatus(a.edges), v, st)
    else if dir == TX && !a.graphStarts then Effect(GraphError, v, st)
    else LaunchEffect(v, st, dir, a)
  }

  // The answer of the last device that is stopped among the first n AIFs.
  ghost function StopStatus(v: View, a: Answers, n: nat): (r: Status)
    requires v.Shape() && n <= |v.pool|
    ensures r.Ok? || r.DriverError?
  {
    if n == 0 then Ok
    else if v.pool[n - 1].state != AifStarted then StopStatus(v, a, n - 1)
    else if v.At(n - 1).dev.start == 1 && !a.pcmStops(n - 1) then DriverError
    else Ok
  }

  ghost function StopEffect(v: View, st: SessState, dir: Direction, a: Answers): (e: Effect)
    requires v.Shape()
    ensures SameSize(v, e.view)
  {
    if st != SessStarted then Effect(Invalid, v, st)
    else if dir == RX && !a.graphStops then Effect(GraphError, v, st)
    else
      Effect(if dir == TX then GraphStatus(a.graphStops) else StopStatus(v, a, |v.pool|),
             Sweep(v, All(Op.Stop, |v.pool|)), SessStopped)
  }

  // The answer of the last device that is closed, or graph_close's if there is none.
  ghost function CloseStatus(v: View, a: Answers, n: nat): (r: Status)
    requires v.Shape() && n <= |v.pool|
    ensures r.Ok? || r.DriverError? || r.GraphError?
  {
    if n == 0 then GraphStatus(a.graphCloses)
    else if !Attached(v.pool[n - 1].state) then CloseStatus(v, a, n - 1)
    else if v.At(n - 1).dev.open == 1 && !a.pcmCloses(n - 1) then DriverError
    else Ok
  }

  ghost function CloseEffect(v: View, st: SessState, a: Answers): (e: Effect)
    requires v.Shape()
    ensures SameSize(v, e.view)
  {
    if st == SessClosed then Effect(Already, v, st)
    else Effect(CloseStatus(v, a, |v.pool|), Sweep(v, All(Op.Close, |v.pool|)), SessClosed)
  }

  // ---- one device --------------------------------------------------------------------------

  // The device alone closed; the AIF state is the caller's business.
  function Closing(c: Cell): Cell { Cell(c.aif, AfterClose(c.dev)) }

  /** session_connect_aif: its answer, and the device after it. first: nothing is attached yet. */
  function ConnectOutcome(a: ConnectAnswers, first: bool, st: SessState, dev: Counters): (Status, Counters) {
    if !a.merges then (NoMemory, dev)
    else if dev.open == 0 && !a.pcmOpens then (DriverError, dev)
    else
      var used := AfterOpen(dev);
      var graph := if !first then a.graphAdds
                   else if st == SessClosed then a.graphOpens && a.registers
                   else a.graphChanges;
      if graph && (st == SessClosed ==> a.sessParams) && a.aifParams && (used.state == DevOpened ==> a.devParams)
      then (Ok, used)
      else (GraphError, AfterClose(used))
  }

  // AIF i after an attempt to connect it.
  ghost function Linked(v: View, i: nat, o: (Status, Counters)): View
    requires v.Shape() && i < |v.pool|
  {
    v.Put(i, Cell(if o.0 == Ok then AifOpened else v.pool[i].state, o.1))
  }

  // session_disconnect_aif returns before it closes the device.
  predicate GivesUp(a: DisconnectAnswers, count: int) {
    !a.merges || (count == 1 && !a.mergesSessAif)
  }

  /** A failing connect leaves the counts and the state of a consistent device as they were. */
  lemma FailedConnectRestores(a: ConnectAnswers, first: bool, st: SessState, dev: Counters)
    requires dev.Consistent()
    ensures var o := ConnectOutcome(a, first, st, dev);
            o.1 == if o.0 == Ok then AfterOpen(dev) else dev
  {
    CloseUndoesOpen(dev);
  }

  lemma PutSame(v: View, i: nat)
    requires v.Shape() && i < |v.pool|
    ensures v.Put(i, v.At(i)) == v
  {
    assert v.Put(i, v.At(i)).pool == v.pool && v.Put(i, v.At(i)).devs == v.devs;
  }

  // ---- opening a session -------------------------------------------------------------------

  datatype OpenPath =
    | OpenRefused                          // not closed
    | OpenFailed                           // no AIF to open, or the first one failed to connect
    | Opened
    | EdgesFailed                          // loopback or echo reference failed after all AIFs connected
    | OpenUnwound(n: nat, ops: seq<Op>)    // AIF n failed to connect; ops[k] was then done to AIF k

  // The first AIF that waits to be opened, or else the size of the pool.
  ghost function FirstWaiting(pool: seq<Aif>): (f: nat)
    ensures f <= |pool| && (f < |pool| ==> pool[f].state == AifOpen)
    ensures forall k :: 0 <= k < f ==> pool[k].state != AifOpen
  {
    if pool == [] || pool[0].state == AifOpen then 0 else 1 + FirstWaiting(pool[1..])
  }

  ghost function FirstOutcome(v: View, st: SessState, a: Answers): (Status, Counters)
    requires v.Shape() && FirstWaiting(v.pool) < |v.pool|
  {
    ConnectOutcome(a.connect(FirstWaiting(v.pool)), true, st, v.At(FirstWaiting(v.pool)).dev)
  }

  ghost function LaterOutcome(v: View, st: SessState, a: Answers, k: nat): (Status, Counters)
    requires v.Shape() && k < |v.pool|
  {
    ConnectOutcome(a.connect(k), false, st, v.At(k).dev)
  }

  ghost predicate LaterFails(v: View, st: SessState, a: Answers, k: nat)
    requires v.Shape() && k < |v.pool|
  {
    v.pool[k].state == AifOpen && LaterOutcome(v, st, a, k).0 != Ok
  }

  // The first of n AIFs that fails to connect later on, or else n.
  ghost function ConnectReach(v: View, st: SessState, a: Answers, n: nat): (k: nat)
    requires v.Shape() && n <= |v.pool|
    ensures k <= n && (k < n ==> LaterFails(v, st, a, k))
    ensures forall l :: 0 <= l < k ==> !LaterFails(v, st, a, l)
  {
    if n == 0 then 0
    else
      var k := ConnectReach(v, st, a, n - 1);
      if k < n - 1 || LaterFails(v, st, a, n - 1) then k else n
  }

  function UnwindOp(s: AifState, a: DisconnectAnswers): Op {
    if s == AifOpened && GivesUp(a, 1) then Leak else Unwind
  }

  ghost function UnwindOps(v: View, a: Answers, n: nat): (ops: seq<Op>)
    requires n <= |v.pool|
    ensures |ops| == n && forall k :: 0 <= k < n ==> ops[k] == UnwindOp(v.pool[k].state, a.disconnect(k))
  {
    seq(n, k requires 0 <= k < n => UnwindOp(v.pool[k].state, a.disconnect(k)))
  }

  // The pool when AIF n has failed to connect after the ones before it, and undone.
  ghost function Stranded(v: View, st: SessState, a: Answers, n: nat): (w: View)
    requires v.Shape() && n < |v.pool|
    ensures SameSize(v, w)
  {
    var u := Sweep(v, All(Op.Connect, n));
    Linked(u, n, LaterOutcome(v, st, a, n))
  }

  // The further AIFs, when the first one is connected. The answer of an unwinding is graph_close's.
  ghost function RemainingEffect(v: View, st: SessState, a: Answers): (e: (Status, View, OpenPath))
    requires v.Shape()
    ensures SameSize(v, e.1)
  {
    var n := ConnectReach(v, st, a, |v.pool|);
    if n == |v.pool| then (Ok, Sweep(v, All(Op.Connect, n)), Opened)
    else
      var u := Stranded(v, st, a, n);
      var ops := UnwindOps(u, a, |u.pool|);
      (GraphStatus(a.graphCloses), Sweep(u, ops), OpenUnwound(n, ops))
  }

  // The end of an open, with loopback and echo reference. An unwound one may get there, too.
  ghost function Finished(e: (Status, View, OpenPath), a: Answers): (f: (Effect, OpenPath))
    ensures f.0.view == e.1
  {
    if e.0 != Ok then (Effect(e.0, e.1, SessClosed), e.2)
    else if a.edges == EdgesReady then (Effect(Ok, e.1, SessOpened), e.2)
    else (Effect(EdgeStatus(a.edges), e.1, SessClosed), if e.2 == Opened then EdgesFailed else e.2)
  }

  ghost function OpenEffect(v: View, st: SessState, a: Answers): (e: (Effect, OpenPath))
    requires v.Shape()
    ensures SameSize(v, e.0.view)
  {
    if st != SessClosed then (Effect(Already, v, st), OpenRefused)
    else if FirstWaiting(v.pool) == |v.pool| then (Effect(NoInterface, v, st), OpenFailed)
    else
      var o := FirstOutcome(v, st, a);
      var u := Linked(v, FirstWaiting(v.pool), o);
      if o.0 != Ok then (Effect(o.0, u, st), OpenFailed)
      else
        Finished(RemainingEffect(u, st, a), a)
  }

  // No device has gained or lost an attachment that its AIF does not account for.
  ghost predicate Balanced(v: View, w: View) {
    && |w.devs| == |v.devs|
    && forall j :: 0 <= j < |v.devs| ==> w.CellOf(j).Others() == v.CellOf(j).Others()
  }

  /** Views with the same AIFs in the same places are told apart by their cells and unused devices. */
  lemma ViewExtensional(v: View, w: View)
    requires v.Shape() && w.Shape() && |w.devs| == |v.devs| && |w.pool| == |v.pool|
    requires forall k :: 0 <= k < |v.pool| ==> w.pool[k].id == v.pool[k].id
    requires forall k :: 0 <= k < |v.pool| ==> w.At(k) == v.At(k)
    requires forall j :: 0 <= j < |v.devs| && !Has(v.pool, j) ==> w.devs[j] == v.devs[j]
    ensures w == v
  {
    forall k | 0 <= k < |v.pool| ensures w.pool[k] == v.pool[k] {
      assert w.At(k) == v.At(k);
    }
    forall j | 0 <= j < |v.devs| ensures w.devs[j] == v.devs[j] {
      if Has(v.pool, j) {
        var k :| 0 <= k < |v.pool| && v.pool[k].id == j;
        assert w.At(k) == v.At(k);
      }
    }
    assert w.pool == v.pool && w.devs == v.devs;
  }

  ghost predicate Unwinding(u: View, ops: seq<Op>) {
    && |ops| <= |u.pool|
    && forall k :: 0 <= k < |ops| ==>
         ops[k] == Unwind || (ops[k] == Leak && u.pool[k].state == AifOpened)
  }

  /** The books are kept by every outcome but two: failed edges, and an unwinding that leaks or reports success. */
  predicate CleanOpen(path: OpenPath, r: Status) {
    match path
    case EdgesFailed => false
    case OpenUnwound(_, ops) => r != Ok && Leak !in ops
    case _ => true
  }

  lemma ConnectFirst(v: View, f: nat, n: nat)
    requires v.Shape() && f < n <= |v.pool|
    ensures var u := v.Put(f, Apply(Op.Connect, v.At(f)));
            Sweep(u, All(Op.Connect, n)) == Sweep(v, All(Op.Connect, n))
  {
    var u := v.Put(f, Apply(Op.Connect, v.At(f)));
    PutAt(v, f, Apply(Op.Connect, v.At(f)));
    forall k | 0 <= k < |v.pool|
      ensures Sweep(u, All(Op.Connect, n)).At(k) == Sweep(v, All(Op.Connect, n)).At(k)
    {
      ConnectFirstAt(v, f, n, k);
    }
    SameSweep(v, u, All(Op.Connect, n));
  }

  // A sweep ends the same from two views that it makes agree on every AIF.
  lemma SameSweep(v: View, u: View, ops: seq<Op>)
    requires v.Shape() && u.Shape() && |u.devs| == |v.devs| && |ops| <= |u.pool| == |v.pool|
    requires forall k :: 0 <= k < |v.pool| ==> u.pool[k].id == v.pool[k].id
    requires forall k :: 0 <= k < |v.pool| ==> Sweep(u, ops).At(k) == Sweep(v, ops).At(k)
    requires forall j :: 0 <= j < |v.devs| && !Has(v.pool, j) ==> u.devs[j] == v.devs[j]
    ensures Sweep(u, ops) == Sweep(v, ops)
  {
    SweepElsewhere(u, ops);
    SweepElsewhere(v, ops);
    ViewExtensional(Sweep(v, ops), Sweep(u, ops));
  }

  lemma ConnectFirstAt(v: View, f: nat, n: nat, k: nat)
    requires v.Shape() && f < n <= |v.pool| && k < |v.pool|
    ensures v.Put(f, Apply(Op.Connect, v.At(f))).Shape()
    ensures Sweep(v.Put(f, Apply(Op.Connect, v.At(f))), All(Op.Connect, n)).At(k) ==
            Sweep(v, All(Op.Connect, n)).At(k)
  {
    var u := v.Put(f, Apply(Op.Connect, v.At(f)));
    PutAt(v, f, Apply(Op.Connect, v.At(f)));
    SweepCell(u, All(Op.Connect, n), k);
    SweepCell(v, All(Op.Connect, n), k);
    ConnectOnce(v.At(k));
  }

  // Connecting the first waiting AIF keeps the books, and leaves the later AIFs as they are.
  lemma FirstConnected(v: View, f: nat)
    requires v.Shape() && v.Sound() && f < |v.pool|
    ensures var u := v.Put(f, Apply(Op.Connect, v.At(f)));
            && u.Shape() && u.Sound()
            && forall k :: 0 <= k < |v.pool| && u.pool[k].state == AifOpen ==> v.pool[k].state == AifOpen && k != f
  {
    StateOfAt(v.pool, |v.devs|, f);
    assert v.CellOf(v.pool[f].id).Sound();
    ApplyKeeps(Op.Connect, v.At(f));
    PutKeeps(v, f, Apply(Op.Connect, v.At(f)));
  }

  lemma ConnectOnce(c: Cell)
    ensures Apply(Op.Connect, Apply(Op.Connect, c)) == Apply(Op.Connect, c)
  {}

  lemma PutAt(v: View, k: nat, c: Cell)
    requires v.Shape() && k < |v.pool|
    ensures v.Put(k, c).Shape()
    ensures forall l :: 0 <= l < |v.pool| ==> v.Put(k, c).At(l) == if l == k then c else v.At(l)
    ensures forall j :: 0 <= j < |v.devs| && !Has(v.pool, j) ==> v.Put(k, c).devs[j] == v.devs[j]
    ensures forall j :: Has(v.Put(k, c).pool, j) ==> Has(v.pool, j)
  {
    assert v.pool[k].id == v.pool[k].id;
  }

  /** A failed open puts every AIF and every device count back, exactly unless a disconnect gave up. */
  lemma UnwindRestores(v: View, n: nat, ops: seq<Op>)
    requires v.Shape() && v.Sound() && v.NoneAttached()
    requires n <= |v.pool| == |ops| && Unwinding(Sweep(v, All(Op.Connect, n)), ops)
    ensures Sweep(Sweep(v, All(Op.Connect, n)), ops) == v <==> Leak !in ops
    ensures Balanced(v, Sweep(Sweep(v, All(Op.Connect, n)), ops)) ==> Leak !in ops
  {
    var u := Sweep(v, All(Op.Connect, n));
    var w := Sweep(u, ops);
    SweepAt(v, All(Op.Connect, n));
    SweepAt(u, ops);
    forall k | 0 <= k < |v.pool|
      ensures ops[k] != Leak ==> w.At(k) == v.At(k)
      ensures ops[k] == Leak ==> w.At(k).Others() == v.At(k).Others() + 1
    {
      StateOfAt(v.pool, |v.devs|, k);
      assert v.CellOf(v.pool[k].id).Sound();
      UnwindCell(v.At(k), k < n, ops[k]);
    }
    if Leak in ops {
      var k :| 0 <= k < |ops| && ops[k] == Leak;
      StateOfAt(v.pool, |v.devs|, k);
      StateOfAt(w.pool, |w.devs|, k);
      assert w.CellOf(v.pool[k].id).Others() != v.CellOf(v.pool[k].id).Others();
    } else {
      ViewExtensional(v, w);
    }
  }

  lemma UnwindCell(c: Cell, connected: bool, op: Op)
    requires c.Sound() && !Attached(c.aif)
    requires var d := if connected then Apply(Op.Connect, c) else c;
             op == Unwind || (op == Leak && d.aif == AifOpened)
    ensures var d := if connected then Apply(Op.Connect, c) else c;
            && (op == Unwind ==> Apply(op, d) == c)
            && (op == Leak ==> Apply(op, d).Others() == c.Others() + 1)
  {
    CloseUndoesOpen(c.dev);
  }

  // With consistent devices the AIF that fails to connect is as before.
  lemma StrandedNowhere(v: View, st: SessState, a: Answers, n: nat)
    requires v.Shape() && v.Sound() && n < |v.pool| && LaterFails(v, st, a, n)
    ensures Stranded(v, st, a, n) == Sweep(v, All(Op.Connect, n))
  {
    var u := Sweep(v, All(Op.Connect, n));
    SoundAt(v, n);
    SweepCell(v, All(Op.Connect, n), n);
    FailedConnectRestores(a.connect(n), false, st, v.At(n).dev);
    PutSame(u, n);
  }

  // A first connect that fails changes nothing; one that succeeds is that of the AIF alone.
  lemma FirstLinked(v: View, st: SessState, a: Answers)
    requires v.Shape() && v.Sound() && FirstWaiting(v.pool) < |v.pool|
    ensures var (f, o) := (FirstWaiting(v.pool), FirstOutcome(v, st, a));
            Linked(v, f, o) == if o.0 == Ok then v.Put(f, Apply(Op.Connect, v.At(f))) else v
  {
    SoundAt(v, FirstWaiting(v.pool));
    FailedConnectRestores(a.connect(FirstWaiting(v.pool)), true, st, v.At(FirstWaiting(v.pool)).dev);
    PutSame(v, FirstWaiting(v.pool));
  }

  // The whole loop over the pool, as if the first AIF had been connected in its turn.
  lemma RemainingFromStart(v: View, st: SessState, a: Answers)
    requires v.Shape() && v.Sound() && FirstWaiting(v.pool) < |v.pool| && FirstOutcome(v, st, a).0 == Ok
    ensures var u := Linked(v, FirstWaiting(v.pool), FirstOutcome(v, st, a));
            var n := ConnectReach(u, st, a, |u.pool|);
            && u.Shape() && Sweep(u, All(Op.Connect, n)) == Sweep(v, All(Op.Connect, n))
            && (n < |v.pool| ==> Stranded(u, st, a, n) == Sweep(v, All(Op.Connect, n)))
  {
    var f := FirstWaiting(v.pool);
    var u := Linked(v, f, FirstOutcome(v, st, a));
    var n := ConnectReach(u, st, a, |u.pool|);
    FirstLinked(v, st, a);
    FirstConnected(v, f);
    assert n < |v.pool| ==> v.pool[n].state == AifOpen && n != f;
    ConnectFirst(v, f, n);
    if n < |v.pool| {
      StrandedNowhere(u, st, a, n);
    }
  }

  // All AIFs connected in pool order, or those before AIF n, and then unwound.
  ghost predicate Attempted(v: View, e: (Status, View, OpenPath))
    requires v.Shape()
  {
    if e.2.OpenUnwound? then
      && e.2.n < |v.pool| == |e.2.ops| && Unwinding(Sweep(v, All(Op.Connect, e.2.n)), e.2.ops)
      && e.1 == Sweep(Sweep(v, All(Op.Connect, e.2.n)), e.2.ops)
    else
      e.0 == Ok && e.1 == Sweep(v, All(Op.Connect, |v.pool|)) && e.2 == Opened
  }

  // What the further connects leave behind, seen from before the first.
  lemma RemainingView(v: View, a: Answers)
    requires v.Shape() && v.Sound() && FirstWaiting(v.pool) < |v.pool| && FirstOutcome(v, SessClosed, a).0 == Ok
    ensures var u := Linked(v, FirstWaiting(v.pool), FirstOutcome(v, SessClosed, a));
            Attempted(v, RemainingEffect(u, SessClosed, a))
  {
    RemainingFromStart(v, SessClosed, a);
    var u := Linked(v, FirstWaiting(v.pool), FirstOutcome(v, SessClosed, a));
    var n := ConnectReach(u, SessClosed, a, |u.pool|);
    if n < |v.pool| {
      var x := Sweep(v, All(Op.Connect, n));
      UnwoundByAnswers(x, a);
      assert RemainingEffect(u, SessClosed, a) ==
             (GraphStatus(a.graphCloses), Sweep(x, UnwindOps(x, a, |x.pool|)),
              OpenUnwound(n, UnwindOps(x, a, |x.pool|)));
    }
  }

  lemma UnwoundByAnswers(v: View, a: Answers)
    ensures Unwinding(v, UnwindOps(v, a, |v.pool|))
  {}

  // An open whose further connects were unwound.
  lemma UnwoundKeeps(v: View, r: Status, n: nat, ops: seq<Op>, st: SessState)
    requires v.Shape() && v.Sound() && v.NoneAttached() && FirstWaiting(v.pool) < |v.pool|
    requires n < |v.pool| == |ops| && Unwinding(Sweep(v, All(Op.Connect, n)), ops)
    requires st == if r == Ok then SessOpened else SessClosed
    ensures OpenKept(v, (Effect(r, Sweep(Sweep(v, All(Op.Connect, n)), ops), st), OpenUnwound(n, ops)))
  {
    UnwindRestores(v, n, ops);
    UnwoundOutcome(v, Sweep(Sweep(v, All(Op.Connect, n)), ops), r, n, ops, st);
  }

  lemma UnwoundOutcome(v: View, w: View, r: Status, n: nat, ops: seq<Op>, st: SessState)
    requires v.Shape() && v.NoneAttached() && FirstWaiting(v.pool) < |v.pool|
    requires (w == v <==> Leak !in ops) && (Balanced(v, w) ==> Leak !in ops)
    requires st == if r == Ok then SessOpened else SessClosed
    ensures OpenKept(v, (Effect(r, w, st), OpenUnwound(n, ops)))
  {
    assert v.pool[FirstWaiting(v.pool)].state == AifOpen;
  }

  // An open that got as far as its further connects.
  lemma FinishedKeeps(v: View, e: (Status, View, OpenPath), a: Answers)
    requires v.Shape() && v.Sound() && v.NoneAttached() && FirstWaiting(v.pool) < |v.pool|
    requires Attempted(v, e)
    ensures OpenKept(v, Finished(e, a))
  {
    if e.2.OpenUnwound? {
      var f := Finished(e, a).0;
      UnwoundKeeps(v, f.r, e.2.n, e.2.ops, f.state);
    } else {
      ConnectedAll(v);
    }
  }

  /** The books are kept exactly if the outcome is clean. */
  ghost predicate OpenKept(v: View, e: (Effect, OpenPath)) {
    if CleanOpen(e.1, e.0.r) then AllKeep(v, e.0.view) && Phase(e.0.view, e.0.state)
    else !(Balanced(v, e.0.view) && Phase(e.0.view, e.0.state))
  }

  lemma OpenKeeps(v: View, st: SessState, a: Answers)
    requires v.Shape() && v.Sound() && Phase(v, st)
    ensures OpenKept(v, OpenEffect(v, st, a))
  {
    if st == SessClosed && FirstWaiting(v.pool) < |v.pool| {
      FirstLinked(v, st, a);
      if FirstOutcome(v, st, a).0 == Ok {
        var u := Linked(v, FirstWaiting(v.pool), FirstOutcome(v, st, a));
        RemainingView(v, a);
        FinishedKeeps(v, RemainingEffect(u, st, a), a);
      }
    }
  }

  lemma ConnectedAll(v: View)
    requires v.Shape() && v.NoneAttached() && FirstWaiting(v.pool) < |v.pool|
    ensures var w := Sweep(v, All(Op.Connect, |v.pool|));
            AllKeep(v, w) && Phase(w, SessOpened) && !Phase(w, SessClosed)
  {
    var w := Sweep(v, All(Op.Connect, |v.pool|));
    SweepKeeps(v, All(Op.Connect, |v.pool|));
    SweepAt(v, All(Op.Connect, |v.pool|));
    forall k | 0 <= k < |v.pool|
      ensures w.pool[k].state == if v.pool[k].state == AifOpen then AifOpened else v.pool[k].state
    {
      assert w.At(k) == Apply(Op.Connect, v.At(k));
    }
  }

  // ---- connecting and disconnecting one AIF ------------------------------------------------

  datatype LinkPath =
    | NoObject                     // the AIF object could not be allocated
    | LinkRefused                  // already connected, or already disconnected
    | Queued                       // closed session: only noted for the next open
    | ConnectFailed
    | Connected
    | LinkUnwound(closed: bool)    // prepare or start failed; was the device closed again?
    | Disconnected
    | Skipped                      // no memory for the merged metadata: AIF_CLOSE, with the device still open

  // The AIF object is created on first use.
  ghost function WithAif(v: View, id: nat): View {
    if Has(v.pool, id) then v else View(v.pool + [Aif(id, AifClosed)], v.devs)
  }

  ghost function IndexOf(pool: seq<Aif>, id: nat): (i: nat)
    ensures i <= |pool| && (i < |pool| ==> pool[i].id == id)
    ensures forall k :: 0 <= k < i ==> pool[k].id != id
  {
    if pool == [] || pool[0].id == id then 0 else 1 + IndexOf(pool[1..], id)
  }

  // How many AIFs are attached.
  function AttachedIn(pool: seq<Aif>): nat {
    if pool == [] then 0
    else AttachedIn(pool[..|pool| - 1]) + Bit(Attached(pool[|pool| - 1].state))
  }

  lemma {:induction false} AttachedInNone(v: View)
    ensures AttachedIn(v.pool) == 0 <==> v.NoneAttached()
    decreases |v.pool|
  {
    if v.pool != [] {
      AttachedInNone(View(v.pool[..|v.pool| - 1], v.devs));
    }
  }

  /** The same AIFs in the same places, on as many devices. */
  ghost predicate SameAifs(v: View, w: View) {
    && SameSize(v, w)
    && forall k :: 0 <= k < |v.pool| ==> w.pool[k].id == v.pool[k].id
  }

  /** w is reached from v without any AIF being attached, detached or queued. */
  ghost predicate Reaches(v: View, w: View) {
    && SameAifs(v, w) && AllKeep(v, w)
    && forall k :: 0 <= k < |v.pool| ==>
         && (Attached(w.pool[k].state) <==> Attached(v.pool[k].state))
         && (w.pool[k].state == AifOpen <==> v.pool[k].state == AifOpen)
  }

  // A freshly connected AIF catches up with its session, as far as it gets.
  ghost function CatchUpEffect(v: View, st: SessState, dir: Direction, a: Answers): (e: Effect)
    requires v.Shape()
    ensures SameSize(v, e.view)
  {
    if st == SessOpened then Effect(Ok, v, st)
    else
      var p := PrepareEffect(v, st, dir, a);
      if p.r != Ok || st != SessStarted then p
      else StartEffect(p.view, p.state, dir, a)
  }

  // The end of a connect that caught up as e says. count: AIFs attached before.
  ghost function SettledEffect(e: Effect, i: nat, count: nat, a: Answers): (f: (Effect, LinkPath))
    requires e.view.Shape() && i < |e.view.pool|
    ensures SameSize(e.view, f.0.view)
  {
    if e.r == Ok then (e, Connected)
    else if GivesUp(a.disconnect(i), count + 1) then (e, LinkUnwound(false))
    else (Effect(e.r, e.view.Put(i, Closing(e.view.At(i))), e.state), LinkUnwound(true))
  }

  ghost function ConnectEffect(v: View, st: SessState, dir: Direction, i: nat, a: Answers): (e: (Effect, LinkPath))
    requires v.Shape() && i < |v.pool|
    ensures SameSize(v, e.0.view)
  {
    if st == SessClosed then (Effect(Ok, v.Put(i, Cell(AifOpen, v.At(i).dev)), st), Queued)
    else
      var count := AttachedIn(v.pool);
      var o := ConnectOutcome(a.connect(i), count == 0, st, v.At(i).dev);
      if o.0 != Ok then (Effect(o.0, Linked(v, i, o), st), ConnectFailed)
      else SettledEffect(CatchUpEffect(Linked(v, i, o), st, dir, a), i, count, a)
  }

  ghost function DisconnectEffect(v: View, st: SessState, i: nat, a: Answers): (e: (Effect, LinkPath))
    requires v.Shape() && i < |v.pool|
    ensures SameSize(v, e.0.view)
  {
    var dev := v.At(i).dev;
    if st == SessClosed then (Effect(Ok, v.Put(i, Cell(AifClosed, dev)), st), Queued)
    else if GivesUp(a.disconnect(i), AttachedIn(v.pool)) then
      (Effect(NoMemory, v.Put(i, Cell(AifClose, dev)), st), Skipped)
    else if dev.open == 1 && !a.disconnect(i).pcmCloses then
      (Effect(DriverError, v.Put(i, Cell(AifClose, AfterClose(dev))), st), Disconnected)
    else (Effect(Ok, v.Put(i, Cell(AifClosed, AfterClose(dev))), st), Disconnected)
  }

  ghost function JoinEffect(v: View, st: SessState, dir: Direction, i: nat, on: bool, a: Answers):
      (e: (Effect, LinkPath))
    requires v.Shape() && i < |v.pool|
    ensures SameSize(v, e.0.view)
  {
    var s := v.pool[i].state;
    if (on && Rank(s) > Rank(AifOpened)) || (!on && Rank(s) < Rank(AifOpen))
    then (Effect(Already, v, st), LinkRefused)
    else if on then ConnectEffect(v, st, dir, i, a)
    else DisconnectEffect(v, st, i, a)
  }

  /** session_obj_sess_aif_connect */
  ghost function LinkEffect(v: View, st: SessState, dir: Direction, id: nat, on: bool, a: Answers):
      (e: (Effect, LinkPath))
    requires v.Shape() && id < |v.devs|
    ensures e.0.view.Shape() && |e.0.view.devs| == |v.devs|
  {
    if !Has(v.pool, id) && !a.aifMemory then (Effect(NoMemory, v, st), NoObject)
    else
      WithAifIndex(v, id);
      JoinEffect(WithAif(v, id), st, dir, IndexOf(WithAif(v, id).pool, id), on, a)
  }

  lemma WithAifIndex(v: View, id: nat)
    requires v.Shape() && id < |v.devs|
    ensures var u := WithAif(v, id);
            && u.Shape() && |u.devs| == |v.devs|
            && IndexOf(u.pool, id) < |u.pool| && u.pool[IndexOf(u.pool, id)].id == id
  {
    var u := WithAif(v, id);
    if Has(v.pool, id) {
      var k :| 0 <= k < |v.pool| && v.pool[k].id == id;
      assert u.pool[k].id == id;
    } else {
      assert u.pool[|v.pool|].id == id;
    }
  }

  /** Attachments the device has gained beyond what the AIF states show. */
  function Drift(path: LinkPath, s: AifState): int {
    match path
    case Connected => Bit(Attached(s))
    case LinkUnwound(closed) => Bit(Attached(s)) - Bit(closed)
    case Skipped => Bit(Attached(s))
    case _ => 0
  }

  lemma WithAifView(v: View, id: nat)
    requires v.Shape() && id < |v.devs|
    ensures WithAif(v, id).Shape()
    ensures AllKeep(v, WithAif(v, id)) && Balanced(v, WithAif(v, id))
    ensures forall j :: 0 <= j < |v.devs| ==> WithAif(v, id).CellOf(j) == v.CellOf(j)
  {
    var w := WithAif(v, id);
    if !Has(v.pool, id) {
      forall j | 0 <= j < |v.devs| ensures w.CellOf(j) == v.CellOf(j) {
        StateOfAppend(v.pool, Aif(id, AifClosed), j);
        if j == id { StateOfAbsent(v.pool, id); }
      }
    }
  }

  /** One AIF on its own, when a live connect is undone: the books are off by exactly the drift. */
  lemma UnwoundCell(c: Cell, mid: Cell, closed: bool)
    requires c.Sound() && Rank(c.aif) <= Rank(AifOpened)
    requires Keeps(Cell(AifOpened, AfterOpen(c.dev)), mid) && Attached(mid.aif)
    ensures var d := if closed then Closing(mid) else mid;
            && d.Others() == c.Others() + Bit(Attached(c.aif)) - Bit(closed)
            && (Bit(Attached(c.aif)) == Bit(closed) ==> Keeps(c, d))
  {
    var linked := Cell(AifOpened, AfterOpen(c.dev));
    assert linked.Sound();
    assert mid.Sound() && mid.Others() == c.dev.open;
  }

  /** What connecting and disconnecting AIF i does to the books. */
  ghost predicate Drifts(v: View, i: nat, w: View, drift: int)
    requires v.Shape() && i < |v.pool|
  {
    && |w.devs| == |v.devs|
    && (forall j :: 0 <= j < |v.devs| && j != v.pool[i].id ==> Keeps(v.CellOf(j), w.CellOf(j)))
    && w.CellOf(v.pool[i].id).Others() == v.CellOf(v.pool[i].id).Others() + drift
    && (drift == 0 ==> Keeps(v.CellOf(v.pool[i].id), w.CellOf(v.pool[i].id)))
  }

  lemma PutDrifts(v: View, i: nat, c: Cell, drift: int)
    requires v.Shape() && i < |v.pool|
    requires c.Others() == v.At(i).Others() + drift
    requires drift == 0 ==> Keeps(v.At(i), c)
    ensures Drifts(v, i, v.Put(i, c), drift)
  {
    PutKeeps(v, i, c);
  }

  predicate Running(op: Op) { op == Op.Prepare || op == Op.Start || op == Op.Unstart || op == Op.Stop }

  lemma RunningCell(op: Op, c: Cell)
    requires Running(op)
    ensures Attached(Apply(op, c).aif) <==> Attached(c.aif)
    ensures Apply(op, c).aif == AifOpen <==> c.aif == AifOpen
  {}

  /** Preparing, starting and stopping neither attach nor detach an AIF. */
  lemma SweepReaches(v: View, ops: seq<Op>)
    requires v.Shape() && |ops| <= |v.pool| && forall k :: 0 <= k < |ops| ==> Running(ops[k])
    ensures Reaches(v, Sweep(v, ops))
  {
    SweepKeeps(v, ops);
    var w := Sweep(v, ops);
    forall k | 0 <= k < |v.pool|
      ensures Attached(w.pool[k].state) <==> Attached(v.pool[k].state)
      ensures w.pool[k].state == AifOpen <==> v.pool[k].state == AifOpen
    {
      SweepCell(v, ops, k);
      assert w.At(k).aif == w.pool[k].state;
      if k < |ops| {
        RunningCell(ops[k], v.At(k));
      }
    }
  }

  lemma ReachesTransitive(u: View, v: View, w: View)
    requires Reaches(u, v) && Reaches(v, w)
    ensures Reaches(u, w)
  {
    AllKeepTransitive(u, v, w);
  }

  lemma RestartedReaches(v: View, n: nat)
    requires v.Shape() && n <= |v.pool|
    ensures Reaches(v, Restarted(v, n))
  {
    var u := Sweep(v, All(Op.Start, n));
    SweepReaches(v, All(Op.Start, n));
    SweepReaches(u, All(Op.Unstart, |v.pool|));
    ReachesTransitive(v, u, Restarted(v, n));
  }

  lemma UnwoundDrifts(v: View, i: nat, mid: View, closed: bool)
    requires v.Shape() && v.Sound() && i < |v.pool| && Rank(v.pool[i].state) <= Rank(AifOpened)
    requires forall k :: 0 <= k < |v.pool| ==> v.pool[k].state != AifOpen
    requires Reaches(v.Put(i, Cell(AifOpened, AfterOpen(v.At(i).dev))), mid)
    ensures var w := if closed then mid.Put(i, Closing(mid.At(i))) else mid;
            && Drifts(v, i, w, Bit(Attached(v.pool[i].state)) - Bit(closed))
            && w.Shape()
            && forall k :: 0 <= k < |w.pool| ==> w.pool[k].state != AifOpen
  {
    var linked := Cell(AifOpened, AfterOpen(v.At(i).dev));
    var id := v.pool[i].id;
    PutKeeps(v, i, linked);
    PutKeeps(mid, i, Closing(mid.At(i)));
    SoundAt(v, i);
    assert Keeps(v.Put(i, linked).CellOf(id), mid.CellOf(id));
    UnwoundCell(v.At(i), mid.At(i), closed);
    forall j | 0 <= j < |v.devs| && j != id ensures Keeps(v.CellOf(j), mid.CellOf(j)) {
      assert Keeps(v.Put(i, linked).CellOf(j), mid.CellOf(j));
    }
  }

  lemma DetachedCell(c: Cell, s: AifState)
    requires c.Sound()
    ensures Attached(c.aif) && !Attached(s) ==> Keeps(c, Cell(s, AfterClose(c.dev)))
    ensures !Attached(c.aif) && !Attached(s) ==> Keeps(c, Cell(s, c.dev))
    ensures !Attached(s) ==> Cell(s, c.dev).Others() == c.Others() + Bit(Attached(c.aif))
  {
  }

  lemma DriftSettles(v: View, i: nat, w: View, drift: int)
    requires v.Shape() && i < |v.pool| && Drifts(v, i, w, drift)
    ensures drift == 0 ==> AllKeep(v, w)
    ensures drift != 0 ==> !Balanced(v, w)
  {
  }

  lemma SelfReaches(v: View)
    requires v.Shape()
    ensures Reaches(v, v)
  {}

  // Preparing and starting, as far as they get.
  lemma PrepareDevicesReaches(v: View, st: SessState, dir: Direction, a: Answers)
    requires v.Shape()
    ensures var e := PrepareDevicesEffect(v, st, dir, a);
            Reaches(v, e.view) && (e.state == st || (e.r == Ok && e.state == SessPrepared))
  {
    SweepReaches(v, All(Op.Prepare, PrepareReach(v, a, |v.pool|)));
  }

  lemma PrepareReaches(v: View, st: SessState, dir: Direction, a: Answers)
    requires v.Shape()
    ensures var e := PrepareEffect(v, st, dir, a);
            Reaches(v, e.view) && (e.state == st || (e.r == Ok && e.state == SessPrepared))
  {
    SelfReaches(v);
    PrepareDevicesReaches(v, st, dir, a);
  }

  lemma LaunchReaches(v: View, st: SessState, dir: Direction, a: Answers)
    requires v.Shape()
    ensures Reaches(v, LaunchEffect(v, st, dir, a).view)
  {
    SweepReaches(v, All(Op.Start, StartReach(v, |v.pool|)));
    RestartedReaches(v, StartReach(v, |v.pool|));
  }

  lemma StartReaches(v: View, st: SessState, dir: Direction, a: Answers)
    requires v.Shape()
    ensures var e := StartEffect(v, st, dir, a);
            Reaches(v, e.view) && (e.state == st || (e.r == Ok && e.state == SessStarted))
  {
    SelfReaches(v);
    LaunchReaches(v, st, dir, a);
  }

  lemma CatchUpReaches(v: View, st: SessState, dir: Direction, a: Answers)
    requires v.Shape() && st != SessClosed
    ensures var e := CatchUpEffect(v, st, dir, a);
            Reaches(v, e.view) && e.state != SessClosed
  {
    var p := PrepareEffect(v, st, dir, a);
    PrepareReaches(v, st, dir, a);
    StartReaches(p.view, p.state, dir, a);
    ReachesTransitive(v, p.view, StartEffect(p.view, p.state, dir, a).view);
    SelfReaches(v);
  }

  // The books after a connect that had to leave the devices alone until then.
  lemma ConnectDrifts(v: View, st: SessState, dir: Direction, i: nat, a: Answers)
    requires v.Shape() && v.Sound() && Phase(v, st) && i < |v.pool| && Rank(v.pool[i].state) <= Rank(AifOpened)
    ensures var (e, path) := ConnectEffect(v, st, dir, i, a);
            Phase(e.view, e.state) && Drifts(v, i, e.view, Drift(path, v.pool[i].state))
  {
    var c := v.At(i);
    SoundAt(v, i);
    if st == SessClosed {
      DetachedCell(c, AifOpen);
      PutDrifts(v, i, Cell(AifOpen, c.dev), 0);
    } else {
      var o := ConnectOutcome(a.connect(i), AttachedIn(v.pool) == 0, st, c.dev);
      FailedConnectRestores(a.connect(i), AttachedIn(v.pool) == 0, st, c.dev);
      if o.0 != Ok {
        PutSame(v, i);
        PutDrifts(v, i, c, 0);
      } else {
        LiveDrifts(v, st, dir, i, AttachedIn(v.pool), a);
      }
    }
  }

  lemma SettledDrifts(v: View, e: Effect, i: nat, count: nat, a: Answers)
    requires v.Shape() && v.Sound() && i < |v.pool| && Rank(v.pool[i].state) <= Rank(AifOpened)
    requires forall k :: 0 <= k < |v.pool| ==> v.pool[k].state != AifOpen
    requires Reaches(v.Put(i, Cell(AifOpened, AfterOpen(v.At(i).dev))), e.view) && e.state != SessClosed
    ensures var (f, path) := SettledEffect(e, i, count, a);
            Phase(f.view, f.state) && Drifts(v, i, f.view, Drift(path, v.pool[i].state))
  {
    UnwoundDrifts(v, i, e.view, SettledEffect(e, i, count, a).1 == LinkUnwound(true));
  }

  lemma LiveDrifts(v: View, st: SessState, dir: Direction, i: nat, count: nat, a: Answers)
    requires v.Shape() && v.Sound() && Phase(v, st) && i < |v.pool| && Rank(v.pool[i].state) <= Rank(AifOpened)
    requires st != SessClosed
    ensures var u := Linked(v, i, (Ok, AfterOpen(v.At(i).dev)));
            var (e, path) := SettledEffect(CatchUpEffect(u, st, dir, a), i, count, a);
            Phase(e.view, e.state) && Drifts(v, i, e.view, Drift(path, v.pool[i].state))
  {
    var u := Linked(v, i, (Ok, AfterOpen(v.At(i).dev)));
    CatchUpReaches(u, st, dir, a);
    SettledDrifts(v, CatchUpEffect(u, st, dir, a), i, count, a);
  }

  lemma DisconnectDrifts(v: View, st: SessState, i: nat, a: Answers)
    requires v.Shape() && v.Sound() && Phase(v, st) && i < |v.pool| && Rank(v.pool[i].state) >= Rank(AifOpen)
    ensures var (e, path) := DisconnectEffect(v, st, i, a);
            Phase(e.view, e.state) && Drifts(v, i, e.view, Drift(path, v.pool[i].state))
  {
    SoundAt(v, i);
    var c := v.At(i);
    var (e, path) := DisconnectEffect(v, st, i, a);
    var s := if e.r == Ok then AifClosed else AifClose;
    DetachedCell(c, s);
    var dev := if path == Disconnected then AfterClose(c.dev) else c.dev;
    PutDrifts(v, i, Cell(s, dev), Drift(path, c.aif));
  }

  /** Connecting or disconnecting an AIF keeps the books exactly without drift. */
  lemma JoinKeeps(v: View, st: SessState, dir: Direction, i: nat, on: bool, a: Answers)
    requires v.Shape() && v.Sound() && Phase(v, st) && i < |v.pool|
    ensures var (e, path) := JoinEffect(v, st, dir, i, on, a);
            Phase(e.view, e.state) && Settled(v, e.view, Drift(path, v.pool[i].state))
  {
    var (e, path) := JoinEffect(v, st, dir, i, on, a);
    if path == LinkRefused {
      assert AllKeep(v, v);
    } else {
      if on {
        ConnectDrifts(v, st, dir, i, a);
      } else {
        DisconnectDrifts(v, st, i, a);
      }
      DriftSettles(v, i, e.view, Drift(path, v.pool[i].state));
    }
  }

  /** The whole call, which may create the AIF object. */
  lemma LinkKeeps(v: View, st: SessState, dir: Direction, id: nat, on: bool, a: Answers)
    requires v.Shape() && v.Sound() && Phase(v, st) && id < |v.devs|
    ensures var (e, path) := LinkEffect(v, st, dir, id, on, a);
            Phase(e.view, e.state) && Settled(v, e.view, Drift(path, StateOf(v.pool, id)))
  {
    var u := WithAif(v, id);
    WithAifIndex(v, id);
    WithAifView(v, id);
    var i := IndexOf(u.pool, id);
    assert u.Sound();
    SoundAt(u, i);
    assert u.pool[i].state == StateOf(v.pool, id) by { assert u.CellOf(id) == v.CellOf(id); }
    JoinKeeps(u, st, dir, i, on, a);
    var (e, path) := JoinEffect(u, st, dir, i, on, a);
    SettledBefore(v, u, e.view, Drift(path, u.pool[i].state));
    assert Settled(v, v, 0);
  }

  // Without drift the books are kept, and with it they do not balance.
  ghost predicate Settled(v: View, w: View, drift: int) {
    if drift == 0 then AllKeep(v, w) else !Balanced(v, w)
  }

  lemma SettledBefore(v: View, u: View, w: View, drift: int)
    requires AllKeep(v, u) && forall j :: 0 <= j < |v.devs| ==> u.CellOf(j) == v.CellOf(j)
    requires Settled(u, w, drift)
    ensures Settled(v, w, drift)
  {
    if drift == 0 {
      AllKeepTransitive(v, u, w);
    } else {
      SameOthers(v, u, w);
    }
  }

  lemma SameOthers(v: View, u: View, w: View)
    requires |u.devs| == |v.devs| && forall j :: 0 <= j < |v.devs| ==> u.CellOf(j) == v.CellOf(j)
    ensures Balanced(v, w) ==> Balanced(u, w)
  {}

  lemma WithAifReady(v: View, id: nat)
    requires v.Shape() && v.Sound() && v.Ready() && id < |v.devs|
    ensures WithAif(v, id).Ready()
  {
    WithAifView(v, id);
    forall j | 0 <= j < |v.devs| ensures WithAif(v, id).CellOf(j).Ready() {
      assert v.CellOf(j).Ready();
    }
  }

  /** A disconnect never makes a session less ready. */
  lemma UnlinkReady(v: View, st: SessState, dir: Direction, id: nat, a: Answers)
    requires v.Shape() && v.Sound() && v.Ready() && id < |v.devs|
    ensures LinkEffect(v, st, dir, id, false, a).0.view.Ready()
  {
    WithAifReady(v, id);
    WithAifIndex(v, id);
    DisconnectReady(WithAif(v, id), st, IndexOf(WithAif(v, id).pool, id), a);
  }

  lemma DisconnectReady(v: View, st: SessState, i: nat, a: Answers)
    requires v.Shape() && v.Ready() && i < |v.pool|
    ensures DisconnectEffect(v, st, i, a).0.view.Ready()
  {
    PutKeeps(v, i, Cell(AifClosed, v.At(i).dev));
    PutKeeps(v, i, Cell(AifClose, v.At(i).dev));
    PutKeeps(v, i, Cell(AifClosed, AfterClose(v.At(i).dev)));
    PutKeeps(v, i, Cell(AifClose, AfterClose(v.At(i).dev)));
  }

  lemma ClosedCell(c: Cell)
    ensures !Attached(Apply(Op.Close, c).aif)
  {}

  lemma CloseDetaches(v: View)
    requires v.Shape()
    ensures Sweep(v, All(Op.Close, |v.pool|)).NoneAttached()
  {
    var w := Sweep(v, All(Op.Close, |v.pool|));
    forall k | 0 <= k < |w.pool| ensures !Attached(w.pool[k].state) {
      SweepCell(v, All(Op.Close, |v.pool|), k);
      ClosedCell(v.At(k));
      assert w.At(k).aif == w.pool[k].state;
    }
  }

  /** device_start refuses no AIF of a ready session. */
  lemma ReadyIsNotStuck(v: View, k: nat)
    requires v.Shape() && v.Sound() && v.Ready() && k < |v.pool|
    ensures !StuckAt(v, k)
  {
    SoundAt(v, k);
    assert v.CellOf(v.pool[k].id).Ready();
    ApplyReady(Op.Start, v.At(k));
  }

  // ---- calls that attach nothing -----------------------------------------------------------

  /** From v to w the books are kept, st is w's phase, and the session is as ready to start as it was. */
  ghost predicate Harmless(v: View, w: View, st: SessState) {
    SameSize(v, w) && AllKeep(v, w) && Phase(w, st) && (v.Ready() ==> w.Ready())
  }

  lemma SelfHarmless(v: View, st: SessState)
    requires v.Shape() && Phase(v, st)
    ensures Harmless(v, v, st)
  {}

  lemma SweepHarmless(v: View, ops: seq<Op>, st: SessState)
    requires v.Shape() && v.Sound() && |ops| <= |v.pool| && Leak !in ops && Op.Connect !in ops
    requires Phase(Sweep(v, ops), st)
    ensures Harmless(v, Sweep(v, ops), st)
  {
    SweepKeeps(v, ops);
    if v.Ready() {
      SweepReady(v, ops);
    }
  }

  lemma RunningHarmless(v: View, st: SessState, ops: seq<Op>, st': SessState)
    requires v.Shape() && v.Sound() && Phase(v, st) && |ops| <= |v.pool|
    requires forall k :: 0 <= k < |ops| ==> Running(ops[k])
    requires st' == SessClosed <==> st == SessClosed
    ensures Harmless(v, Sweep(v, ops), st')
  {
    SweepReaches(v, ops);
    SweepHarmless(v, ops, st');
  }

  lemma HarmlessTwice(u: View, v: View, st: SessState, w: View, st': SessState)
    requires Harmless(u, v, st) && Harmless(v, w, st')
    ensures Harmless(u, w, st')
  {
    AllKeepTransitive(u, v, w);
  }

  lemma PrepareDevicesHarmless(v: View, st: SessState, dir: Direction, a: Answers)
    requires v.Shape() && v.Sound() && Phase(v, st) && st != SessClosed
    ensures var e := PrepareDevicesEffect(v, st, dir, a); Harmless(v, e.view, e.state)
  {
    var n := PrepareReach(v, a, |v.pool|);
    RunningHarmless(v, st, All(Op.Prepare, n), st);
    RunningHarmless(v, st, All(Op.Prepare, n), SessPrepared);
  }

  lemma PrepareHarmless(v: View, st: SessState, dir: Direction, a: Answers)
    requires v.Shape() && v.Sound() && Phase(v, st)
    ensures var e := PrepareEffect(v, st, dir, a); Harmless(v, e.view, e.state)
  {
    SelfHarmless(v, st);
    if st != SessClosed {
      PrepareDevicesHarmless(v, st, dir, a);
    }
  }

  lemma PrepareMakesReady(v: View, st: SessState, dir: Direction, a: Answers)
    requires v.Shape() && v.Sound()
    ensures var e := PrepareEffect(v, st, dir, a); e.r == Ok ==> e.view.Ready()
  {
    PreparedIsReady(v);
  }

  lemma LaunchHarmless(v: View, st: SessState, dir: Direction, a: Answers)
    requires v.Shape() && v.Sound() && Phase(v, st) && st != SessClosed
    ensures var e := LaunchEffect(v, st, dir, a);
            Harmless(v, e.view, e.state) && (v.Ready() ==> e.r != NotPrepared)
  {
    var n := StartReach(v, |v.pool|);
    var u := Sweep(v, All(Op.Start, n));
    RunningHarmless(v, st, All(Op.Start, n), SessStarted);
    KeepsSound(v, u);
    RunningHarmless(u, SessStarted, All(Op.Unstart, |u.pool|), st);
    HarmlessTwice(v, u, SessStarted, Restarted(v, n), st);
    if n < |v.pool| && v.Ready() {
      ReadyIsNotStuck(v, n);
    }
  }

  lemma StartHarmless(v: View, st: SessState, dir: Direction, a: Answers)
    requires v.Shape() && v.Sound() && Phase(v, st)
    ensures var e := StartEffect(v, st, dir, a);
            Harmless(v, e.view, e.state) && (v.Ready() ==> e.r != NotPrepared)
  {
    SelfHarmless(v, st);
    if st == SessClosed {
      ClosedRefuses(v, dir, a);
    } else {
      LaunchHarmless(v, st, dir, a);
    }
  }

  /** Preparing or starting a closed session fails and changes nothing. */
  lemma ClosedRefuses(v: View, dir: Direction, a: Answers)
    requires v.Shape() && Phase(v, SessClosed)
    ensures PrepareEffect(v, SessClosed, dir, a) == Effect(NoInterface, v, SessClosed)
    ensures StartEffect(v, SessClosed, dir, a) == Effect(NoInterface, v, SessClosed)
  {}

  lemma StopHarmless(v: View, st: SessState, dir: Direction, a: Answers)
    requires v.Shape() && v.Sound() && Phase(v, st)
    ensures var e := StopEffect(v, st, dir, a); Harmless(v, e.view, e.state)
  {
    SelfHarmless(v, st);
    if st == SessStarted {
      RunningHarmless(v, st, All(Op.Stop, |v.pool|), SessStopped);
    }
  }

  lemma CloseHarmless(v: View, st: SessState, a: Answers)
    requires v.Shape() && v.Sound() && Phase(v, st)
    ensures var e := CloseEffect(v, st, a); Harmless(v, e.view, e.state)
  {
    SelfHarmless(v, st);
    CloseDetaches(v);
    SweepHarmless(v, All(Op.Close, |v.pool|), SessClosed);
  }
}
