/** AIF states, and what the session calls do to one AIF and the shared device behind it. */
module Cells {
  import opened Devices

  datatype AifState = AifClosed | AifClose | AifOpen | AifOpened | AifStopped | AifPrepared | AifStarted

  // The enum order of service/inc/session_obj.h, which the code compares with < and >.
  function Rank(s: AifState): nat {
    match s
    case AifClosed => 0
    case AifClose => 1
    case AifOpen => 2
    case AifOpened => 3
    case AifStopped => 4
    case AifPrepared => 5
    case AifStarted => 6
  }

  predicate Attached(s: AifState) { Rank(s) >= Rank(AifOpened) }

  datatype Aif = Aif(id: nat, state: AifState)

  function Bit(b: bool): nat { if b then 1 else 0 }

  /** One AIF of one session together with the device it points to. */
  datatype Cell = Cell(aif: AifState, dev: Counters) {

    ghost predicate Sound() {
      && dev.Consistent()
      && (Attached(aif) ==> dev.open >= 1)
      && (Rank(aif) > Rank(AifOpened) ==> dev.prepare >= 1)
      && (aif == AifStarted ==> dev.start >= 1)
    }

    // Attachments of the device that are not this AIF's.
    ghost function Others(): int { dev.open - Bit(Attached(aif)) }

    // Starts of the device beyond this AIF's own.
    ghost function SpareStarts(): int { dev.start - Bit(aif == AifStarted) }

    ghost predicate Ready() { Attached(aif) ==> dev.prepare >= 1 }
  }

  /** What a call may do to an AIF and its device: the other sessions on that device must not notice. */
  ghost predicate Keeps(c: Cell, d: Cell) {
    c.Sound() ==>
      && d.Sound()
      && d.Others() == c.Others()
      && (c.Others() > 0 ==> d.dev.prepare >= c.dev.prepare && d.SpareStarts() >= c.SpareStarts())
  }

  /** The things a call does to a single AIF, state change and device call together. */
  datatype Op =
    | Connect  // open the device of an AIF waiting in AIF_OPEN
    | Prepare
    | Start
    | Unstart  // the unwinding of a failed start
    | Stop
    | Close
    | Unwind   // the unwinding of a failed open
    | Leak     // the same, when the disconnect gives up before closing the device

  function Apply(op: Op, c: Cell): Cell {
    match op
    case Connect =>
      if c.aif == AifOpen then Cell(AifOpened, AfterOpen(c.dev)) else c
    case Prepare =>
      if c.aif == AifOpened || c.aif == AifStopped then Cell(AifPrepared, AfterPrepare(c.dev)) else c
    case Start =>
      if Startable(c.aif) && !StartRefused(c.dev) then Cell(AifStarted, AfterStart(c.dev)) else c
    case Unstart =>
      if c.aif == AifStarted then Cell(AifOpened, AfterStop(c.dev)) else c
    case Stop =>
      if c.aif == AifStarted then Cell(AifStopped, AfterStop(c.dev)) else c
    case Close =>
      if Attached(c.aif) then Cell(AifClosed, AfterClose(c.dev)) else c
    case Unwind =>
      if c.aif == AifOpened then Cell(AifOpen, AfterClose(c.dev)) else c
    case Leak =>
      if c.aif == AifOpened then Cell(AifOpen, c.dev) else c
  }

  predicate Startable(s: AifState) { s == AifOpened || s == AifPrepared || s == AifStopped }

  /** Every operation but a leak is invisible to the other sessions; a leak shifts their count by one. */
  lemma ApplyKeeps(op: Op, c: Cell)
    ensures Keeps(c, Apply(op, c)) <==> (op == Leak && c.Sound() ==> c.aif != AifOpened)
    ensures op == Leak && c.Sound() && c.aif == AifOpened ==> Apply(op, c).Others() == c.Others() + 1
  {}

  lemma ApplyReady(op: Op, c: Cell)
    requires c.Sound() && c.Ready() && op != Connect
    ensures Apply(op, c).Ready()
    ensures Attached(c.aif) ==> !StartRefused(c.dev)
  {}

  lemma KeepsTransitive(a: Cell, b: Cell, c: Cell)
    requires Keeps(a, b) && Keeps(b, c)
    ensures Keeps(a, c)
  {}

  // ---- a session's pool and all devices ----------------------------------------------------

  ghost predicate Unique(pool: seq<Aif>, n: nat) {
    && (forall k :: 0 <= k < |pool| ==> pool[k].id < n)
    && (forall k, l :: 0 <= k < l < |pool| ==> pool[k].id != pool[l].id)
  }

  ghost predicate Has(pool: seq<Aif>, id: nat) {
    exists k :: 0 <= k < |pool| && pool[k].id == id
  }

  // An AIF that was never created counts as closed.
  ghost function StateOf(pool: seq<Aif>, id: nat): AifState {
    if pool == [] then AifClosed
    else if pool[0].id == id then pool[0].state
    else StateOf(pool[1..], id)
  }

  lemma {:induction false} StateOfAt(pool: seq<Aif>, n: nat, k: nat)
    requires Unique(pool, n) && k < |pool|
    ensures StateOf(pool, pool[k].id) == pool[k].state
  {
    if k > 0 {
      StateOfAt(pool[1..], n, k - 1);
    }
  }

  lemma {:induction false} StateOfAbsent(pool: seq<Aif>, id: nat)
    requires !Has(pool, id)
    ensures StateOf(pool, id) == AifClosed
  {
    if pool != [] {
      assert pool[0].id != id;
      assert forall k :: 0 <= k < |pool[1..]| ==> pool[1..][k] == pool[k + 1];
      StateOfAbsent(pool[1..], id);
    }
  }

  lemma {:induction false} StateOfUpdate(pool: seq<Aif>, n: nat, i: nat, s: AifState, id: nat)
    requires Unique(pool, n) && i < |pool|
    ensures StateOf(pool[i := pool[i].(state := s)], id) ==
            if id == pool[i].id then s else StateOf(pool, id)
  {
    var pool' := pool[i := pool[i].(state := s)];
    if i > 0 {
      assert pool'[1..] == pool[1..][i - 1 := pool[1..][i - 1].(state := s)];
      StateOfUpdate(pool[1..], n, i - 1, s, id);
    }
  }

  lemma {:induction false} StateOfAppend(pool: seq<Aif>, a: Aif, id: nat)
    requires !Has(pool, a.id)
    ensures StateOf(pool + [a], id) == if id == a.id then a.state else StateOf(pool, id)
  {
    if pool != [] {
      assert pool[0].id != a.id;
      assert forall k :: 0 <= k < |pool[1..]| ==> pool[1..][k] == pool[k + 1];
      assert (pool + [a])[1..] == pool[1..] + [a];
      StateOfAppend(pool[1..], a, id);
    }
  }

  /** The part of the heap a session call works on: its pool and the global device list. */
  datatype View = View(pool: seq<Aif>, devs: seq<Counters>) {

    ghost predicate Shape() { Unique(pool, |devs|) }

    ghost function At(k: nat): Cell
      requires Shape() && k < |pool|
    {
      Cell(pool[k].state, devs[pool[k].id])
    }

    ghost function CellOf(j: nat): Cell
      requires j < |devs|
    {
      Cell(StateOf(pool, j), devs[j])
    }

    ghost function Put(k: nat, c: Cell): View
      requires Shape() && k < |pool|
    {
      View(pool[k := pool[k].(state := c.aif)], devs[pool[k].id := c.dev])
    }

    ghost predicate Sound() { forall j :: 0 <= j < |devs| ==> CellOf(j).Sound() }

    ghost predicate Ready() { forall j :: 0 <= j < |devs| ==> CellOf(j).Ready() }

    ghost predicate NoneAttached() { forall k :: 0 <= k < |pool| ==> !Attached(pool[k].state) }
  }

  ghost predicate AllKeep(v: View, w: View) {
    && |w.devs| == |v.devs|
    && forall j :: 0 <= j < |v.devs| ==> Keeps(v.CellOf(j), w.CellOf(j))
  }

  /** Operation ops[k] has been applied to AIF k, for each k < |ops|, in pool order. */
  ghost function Sweep(v: View, ops: seq<Op>): (w: View)
    requires v.Shape() && |ops| <= |v.pool|
    ensures w.Shape() && |w.pool| == |v.pool| && |w.devs| == |v.devs|
    ensures forall k :: 0 <= k < |v.pool| ==> w.pool[k].id == v.pool[k].id
    decreases |ops|
  {
    if ops == [] then v
    else
      var n := |ops| - 1;
      var u := Sweep(v, ops[..n]);
      u.Put(n, Apply(ops[n], u.At(n)))
  }

  ghost function All(op: Op, n: nat): (ops: seq<Op>)
    ensures |ops| == n && forall k :: 0 <= k < n ==> ops[k] == op
  {
    seq(n, _ => op)
  }

  /** One more step of a loop over the pool. */
  lemma SweepStep(v: View, ops: seq<Op>, op: Op)
    requires v.Shape() && |ops| < |v.pool|
    ensures Sweep(v, ops + [op]) == Sweep(v, ops).Put(|ops|, Apply(op, Sweep(v, ops).At(|ops|)))
  {
    assert (ops + [op])[..|ops|] == ops;
  }

  lemma AllStep(op: Op, n: nat)
    ensures All(op, n) + [op] == All(op, n + 1)
  {}

  lemma SweepNone(v: View, op: Op)
    requires v.Shape()
    ensures Sweep(v, All(op, 0)) == v
  {}

  /** A sweep does to every AIF just what its own operation says, and nothing to other devices. */
  lemma {:induction false} SweepAt(v: View, ops: seq<Op>)
    requires v.Shape() && |ops| <= |v.pool|
    ensures forall k :: 0 <= k < |v.pool| ==>
              Sweep(v, ops).At(k) == if k < |ops| then Apply(ops[k], v.At(k)) else v.At(k)
    ensures forall j :: 0 <= j < |v.devs| && !Has(v.pool, j) ==> Sweep(v, ops).devs[j] == v.devs[j]
    decreases |ops|
  {
    if ops != [] {
      SweepAt(v, ops[..|ops| - 1]);
    }
  }

  lemma SweepCell(v: View, ops: seq<Op>, k: nat)
    requires v.Shape() && |ops| <= |v.pool| && k < |v.pool|
    ensures Sweep(v, ops).At(k) == if k < |ops| then Apply(ops[k], v.At(k)) else v.At(k)
  {
    SweepAt(v, ops);
  }

  lemma SweepElsewhere(v: View, ops: seq<Op>)
    requires v.Shape() && |ops| <= |v.pool|
    ensures forall j :: 0 <= j < |v.devs| && !Has(v.pool, j) ==> Sweep(v, ops).devs[j] == v.devs[j]
  {
    SweepAt(v, ops);
  }

  lemma PutKeeps(v: View, k: nat, c: Cell)
    requires v.Shape() && k < |v.pool|
    ensures var w := v.Put(k, c);
            w.Shape() && |w.devs| == |v.devs| &&
            forall j :: 0 <= j < |v.devs| ==>
              w.CellOf(j) == if j == v.pool[k].id then c else v.CellOf(j)
    ensures v.CellOf(v.pool[k].id) == v.At(k)
  {
    StateOfAt(v.pool, |v.devs|, k);
    forall j | 0 <= j < |v.devs|
      ensures v.Put(k, c).CellOf(j) == if j == v.pool[k].id then c else v.CellOf(j)
    {
      StateOfUpdate(v.pool, |v.devs|, k, c.aif, j);
    }
  }

  lemma PutAgain(v: View, k: nat, c: Cell, d: Cell)
    requires v.Shape() && k < |v.pool|
    ensures v.Put(k, c).Shape() && v.Put(k, c).At(k) == c
    ensures v.Put(k, c).Put(k, d) == v.Put(k, d)
  {
    assert v.Put(k, c).Put(k, d).devs == v.Put(k, d).devs;
  }

  lemma SoundAt(v: View, k: nat)
    requires v.Shape() && v.Sound() && k < |v.pool|
    ensures v.At(k).Sound() && v.At(k) == v.CellOf(v.pool[k].id)
  {
    StateOfAt(v.pool, |v.devs|, k);
    assert v.CellOf(v.pool[k].id).Sound();
  }

  lemma {:induction false} SweepKeeps(v: View, ops: seq<Op>)
    requires v.Shape() && |ops| <= |v.pool| && Leak !in ops
    ensures AllKeep(v, Sweep(v, ops))
    decreases |ops|
  {
    if ops != [] {
      var n := |ops| - 1;
      var u := Sweep(v, ops[..n]);
      SweepKeeps(v, ops[..n]);
      var d := Apply(ops[n], u.At(n));
      PutKeeps(u, n, d);
      ApplyKeeps(ops[n], u.At(n));
      forall j | 0 <= j < |v.devs| ensures Keeps(v.CellOf(j), u.Put(n, d).CellOf(j)) {
        KeepsTransitive(v.CellOf(j), u.CellOf(j), u.Put(n, d).CellOf(j));
      }
    }
  }

  lemma {:induction false} SweepReady(v: View, ops: seq<Op>)
    requires v.Shape() && |ops| <= |v.pool| && Leak !in ops && Connect !in ops
    requires v.Sound() && v.Ready()
    ensures Sweep(v, ops).Ready()
    decreases |ops|
  {
    if ops != [] {
      var n := |ops| - 1;
      var u := Sweep(v, ops[..n]);
      SweepReady(v, ops[..n]);
      SweepKeeps(v, ops[..n]);
      PutKeeps(u, n, Apply(ops[n], u.At(n)));
      assert Keeps(v.CellOf(u.pool[n].id), u.CellOf(u.pool[n].id));
      ApplyReady(ops[n], u.At(n));
    }
  }

  lemma KeepsSound(v: View, w: View)
    requires AllKeep(v, w) && v.Sound()
    ensures w.Sound()
  {
    forall j | 0 <= j < |w.devs| ensures w.CellOf(j).Sound() {
      assert Keeps(v.CellOf(j), w.CellOf(j));
    }
  }

  lemma AllKeepTransitive(u: View, v: View, w: View)
    requires AllKeep(u, v) && AllKeep(v, w)
    ensures AllKeep(u, w)
  {
    forall j | 0 <= j < |u.devs| ensures Keeps(u.CellOf(j), w.CellOf(j)) {
      KeepsTransitive(u.CellOf(j), v.CellOf(j), w.CellOf(j));
    }
  }

  lemma PrepareReady(c: Cell)
    requires c.Sound()
    ensures Apply(Prepare, c).Ready()
  {}

  /** Preparing every AIF of a sound session makes it ready to start. */
  lemma PreparedIsReady(v: View)
    requires v.Shape() && v.Sound()
    ensures Sweep(v, All(Prepare, |v.pool|)).Ready()
  {
    var w := Sweep(v, All(Prepare, |v.pool|));
    SweepAt(v, All(Prepare, |v.pool|));
    forall j | 0 <= j < |w.devs| ensures w.CellOf(j).Ready() {
      if Has(w.pool, j) {
        var k :| 0 <= k < |w.pool| && w.pool[k].id == j;
        StateOfAt(w.pool, |w.devs|, k);
        StateOfAt(v.pool, |v.devs|, k);
        assert w.CellOf(j) == w.At(k);
        assert v.CellOf(j) == v.At(k);
        assert v.At(k).Sound();
        PrepareReady(v.At(k));
      } else {
        StateOfAbsent(w.pool, j);
      }
    }
  }
}
