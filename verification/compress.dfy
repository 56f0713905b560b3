/** Fragment accounting of a compressed stream (plugins/tinyalsa/src/agm_compress_plugin.c). */
module Compress {
  import opened Arith
  import opened Common

  datatype WriteResult = Written(bytes: nat) | TooLarge | SessionError | Overrun

  datatype ReadResult = ReadOk(bytes: nat) | Invalid | SessionFailed

  // Fragments needed for so many bytes.
  function Fragments(bytes: nat, fragment: nat): nat
    requires fragment > 0
  {
    bytes / fragment + (if bytes % fragment != 0 then 1 else 0)
  }

  lemma FragmentsLeast(bytes: nat, fragment: nat)
    requires fragment > 0
    ensures bytes <= Fragments(bytes, fragment) * fragment < bytes + fragment
  {
    DivMod(bytes, fragment);
    var q := bytes / fragment;
    Spread(q, 1, 0, fragment);
  }

  lemma FragmentsWithin(bytes: nat, fragment: nat, n: nat)
    requires fragment > 0
    ensures Fragments(bytes, fragment) <= n <==> bytes <= n * fragment
  {
    var k := Fragments(bytes, fragment);
    FragmentsLeast(bytes, fragment);
    MulOrder(k, n, fragment);
    MulOrder(n + 1, k, fragment);
    Spread(n, 1, 0, fragment);
  }

  lemma WholeFragments(bytes: int, fragment: nat, k: int)
    requires fragment > 0
    ensures (bytes + k * fragment) % fragment == bytes % fragment
  {
    DivMod(bytes, fragment);
    var q, r := bytes / fragment, bytes % fragment;
    Spread(q, k, 0, fragment);
    DivUnique(bytes + k * fragment, fragment, q + k, r);
  }

  // ---- playback as a function --------------------------------------------------------------

  /** outstanding: fragments AGM has accepted and not yet signalled. */
  datatype Playback = Playback(avail: int, outstanding: int, copied: nat, prepared: bool)

  datatype PlayStep =
    | DoWrite(bytes: nat, prepares: bool, writes: bool, accepted: nat, signals: nat)
    | DoSignal
    | DoStop(stops: bool)

  // The write gets as far as AGM's taking the data.
  predicate Accepted(p: Playback, total: nat, step: PlayStep) {
    step.DoWrite? && step.bytes <= total && (p.prepared || step.prepares) && step.writes
  }

  // agm_compress_write, with the signals that arrive before it accounts for the data.
  function AfterWrite(p: Playback, fragment: nat, total: nat, step: PlayStep): (WriteResult, Playback)
    requires fragment > 0 && step.DoWrite?
  {
    if step.bytes > total then (TooLarge, p)
    else if !p.prepared && !step.prepares then (SessionError, p)
    else if !step.writes then (SessionError, p.(prepared := true))
    else
      var n := Fragments(step.accepted, fragment);
      var avail := p.avail + step.signals * fragment - n * fragment;
      var q := p.(avail := avail, outstanding := p.outstanding + n - step.signals, prepared := true);
      if avail < 0 then (Overrun, q) else (Written(step.accepted), q.(copied := q.copied + step.accepted))
  }

  function AfterSignal(p: Playback, fragment: nat): Playback {
    p.(avail := p.avail + fragment, outstanding := p.outstanding - 1)
  }

  function AfterStop(p: Playback, total: nat, stops: bool): Playback {
    if stops then p.(avail := total, copied := 0, outstanding := 0) else p
  }

  /** One step: the answer of a write, if it is one, and the state. */
  function AfterPlay(p: Playback, fragment: nat, total: nat, step: PlayStep): (seq<WriteResult>, Playback)
    requires fragment > 0
  {
    match step
    case DoWrite(_, _, _, _, _) => var (r, q) := AfterWrite(p, fragment, total, step); ([r], q)
    case DoSignal => ([], AfterSignal(p, fragment))
    case DoStop(stops) => ([], AfterStop(p, total, stops))
  }

  function Play(p: Playback, fragment: nat, total: nat, steps: seq<PlayStep>): (seq<WriteResult>, Playback)
    requires fragment > 0
  {
    if steps == [] then ([], p)
    else
      var (rs, q) := Play(p, fragment, total, steps[..|steps| - 1]);
      var (r, q') := AfterPlay(q, fragment, total, steps[|steps| - 1]);
      (rs + r, q')
  }

  /** What is available is what AGM does not hold. */
  predicate Balances(p: Playback, count: nat, fragment: nat) {
    p.avail == (count - p.outstanding) * fragment
  }

  lemma StepBalances(p: Playback, fragment: nat, count: nat, step: PlayStep)
    requires fragment > 0 && Balances(p, count, fragment)
    ensures Balances(AfterPlay(p, fragment, count * fragment, step).1, count, fragment)
  {
    var free := count - p.outstanding;
    match step
    case DoWrite(_, _, _, accepted, signals) =>
      Spread(free, signals, Fragments(accepted, fragment), fragment);
    case DoSignal =>
      Spread(free, 1, 0, fragment);
    case DoStop(_) =>
  }

  /** Whatever AGM does: total less fragment times outstanding fragments. */
  lemma {:induction false} PlayBalances(p: Playback, fragment: nat, count: nat, steps: seq<PlayStep>)
    requires fragment > 0 && Balances(p, count, fragment)
    ensures Balances(Play(p, fragment, count * fragment, steps).1, count, fragment)
    decreases |steps|
  {
    if steps != [] {
      PlayBalances(p, fragment, count, steps[..|steps| - 1]);
      StepBalances(Play(p, fragment, count * fragment, steps[..|steps| - 1]).1, fragment, count, steps[|steps| - 1]);
    }
  }

  // More fragments are taken than are free, early signals included.
  predicate Overruns(p: Playback, fragment: nat, count: nat, step: PlayStep)
    requires fragment > 0
  {
    Accepted(p, count * fragment, step) &&
    Fragments(step.accepted, fragment) > count - p.outstanding + step.signals
  }

  lemma StepOverruns(p: Playback, fragment: nat, count: nat, step: PlayStep)
    requires fragment > 0 && Balances(p, count, fragment)
    ensures Overrun in AfterPlay(p, fragment, count * fragment, step).0 <==> Overruns(p, fragment, count, step)
  {
    if step.DoWrite? {
      var free, n := count - p.outstanding, Fragments(step.accepted, fragment);
      Spread(free, step.signals, n, fragment);
      MulOrder(0, free + step.signals - n, fragment);
    }
  }

  // At some step of the run AGM takes more fragments than are free.
  predicate SomeOverrun(p: Playback, fragment: nat, count: nat, steps: seq<PlayStep>)
    requires fragment > 0
  {
    steps != [] &&
    var before := steps[..|steps| - 1];
    || SomeOverrun(p, fragment, count, before)
    || Overruns(Play(p, fragment, count * fragment, before).1, fragment, count, steps[|steps| - 1])
  }

  /** A run has an overrun exactly if, at some step, AGM takes more fragments than are free. */
  lemma {:induction false} PlayOverruns(p: Playback, fragment: nat, count: nat, steps: seq<PlayStep>)
    requires fragment > 0 && Balances(p, count, fragment)
    ensures Overrun in Play(p, fragment, count * fragment, steps).0 <==> SomeOverrun(p, fragment, count, steps)
    decreases |steps|
  {
    if steps != [] {
      var before := steps[..|steps| - 1];
      PlayOverruns(p, fragment, count, before);
      PlayBalances(p, fragment, count, before);
      StepOverruns(Play(p, fragment, count * fragment, before).1, fragment, count, steps[|steps| - 1]);
    }
  }

  /** AGM takes at most the free fragments, and signals only fragments it holds. */
  predicate Faithful(p: Playback, fragment: nat, count: nat, step: PlayStep)
    requires fragment > 0
  {
    match step
    case DoWrite(_, _, _, accepted, signals) =>
      Accepted(p, count * fragment, step) ==> 0 <= p.outstanding + Fragments(accepted, fragment) - signals <= count
    case DoSignal => p.outstanding > 0
    case DoStop(_) => true
  }

  // Between nothing and the whole buffer.
  predicate Within(p: Playback, total: nat) { 0 <= p.avail <= total }

  lemma WithinHeld(p: Playback, fragment: nat, count: nat)
    requires fragment > 0 && Balances(p, count, fragment)
    ensures Within(p, count * fragment) <==> 0 <= p.outstanding <= count
    ensures p.avail % fragment == 0
  {
    MulOrder(0, count - p.outstanding, fragment);
    MulOrder(count - p.outstanding, count, fragment);
    WholeFragments(0, fragment, count - p.outstanding);
  }

  lemma StepWithin(p: Playback, fragment: nat, count: nat, step: PlayStep)
    requires fragment > 0 && Balances(p, count, fragment) && Within(p, count * fragment)
    ensures Within(AfterPlay(p, fragment, count * fragment, step).1, count * fragment) <==>
            Faithful(p, fragment, count, step)
    ensures Faithful(p, fragment, count, step) ==> !Overruns(p, fragment, count, step)
  {
    var q := AfterPlay(p, fragment, count * fragment, step).1;
    StepBalances(p, fragment, count, step);
    WithinHeld(p, fragment, count);
    WithinHeld(q, fragment, count);
  }

  // At the start and after every step.
  predicate AlwaysWithin(p: Playback, fragment: nat, count: nat, steps: seq<PlayStep>)
    requires fragment > 0
  {
    && Within(Play(p, fragment, count * fragment, steps).1, count * fragment)
    && (steps == [] || AlwaysWithin(p, fragment, count, steps[..|steps| - 1]))
  }

  predicate AlwaysFaithful(p: Playback, fragment: nat, count: nat, steps: seq<PlayStep>)
    requires fragment > 0
  {
    steps == [] ||
    var before := steps[..|steps| - 1];
    && AlwaysFaithful(p, fragment, count, before)
    && Faithful(Play(p, fragment, count * fragment, before).1, fragment, count, steps[|steps| - 1])
  }

  /**
    Along a run what is available stays between nothing and the whole buffer exactly if AGM is faithful at
    every step; and then no write overruns.
  */
  lemma {:induction false} PlayWithin(p: Playback, fragment: nat, count: nat, steps: seq<PlayStep>)
    requires fragment > 0 && Balances(p, count, fragment) && Within(p, count * fragment)
    ensures AlwaysWithin(p, fragment, count, steps) <==> AlwaysFaithful(p, fragment, count, steps)
    ensures AlwaysFaithful(p, fragment, count, steps) ==> Overrun !in Play(p, fragment, count * fragment, steps).0
    decreases |steps|
  {
    if steps != [] {
      var n := |steps| - 1;
      var before := steps[..n];
      var q := Play(p, fragment, count * fragment, before).1;
      PlayWithin(p, fragment, count, before);
      PlayBalances(p, fragment, count, before);
      StepOverruns(q, fragment, count, steps[n]);
      if Within(q, count * fragment) {
        StepWithin(q, fragment, count, steps[n]);
      }
    }
  }

  /** The answer of a write: refused, failed, all that AGM accepted, or an overrun; and the bytes copied. */
  lemma WriteAnswers(p: Playback, fragment: nat, total: nat, step: PlayStep)
    requires fragment > 0 && step.DoWrite?
    ensures var (r, q) := AfterWrite(p, fragment, total, step);
            && (r == TooLarge <==> step.bytes > total)
            && (r == SessionError <==> step.bytes <= total && ((!p.prepared && !step.prepares) || !step.writes))
            && (r.Written? ==> r.bytes == step.accepted)
            && q.copied == p.copied + (if r.Written? then r.bytes else 0)
            && (q.prepared <==> p.prepared || (step.bytes <= total && step.prepares))
            && (r == TooLarge || r == SessionError ==> q.avail == p.avail && q.outstanding == p.outstanding)
  {}

  function IsStop(step: PlayStep): bool { step.DoStop? && step.stops }

  function Bytes(results: seq<WriteResult>): nat {
    if results == [] then 0
    else Bytes(results[..|results| - 1]) +
         match results[|results| - 1] case Written(bytes) => bytes case _ => 0
  }

  function Writes(steps: seq<PlayStep>): nat {
    if steps == [] then 0
    else Writes(steps[..|steps| - 1]) + if steps[|steps| - 1].DoWrite? then 1 else 0
  }

  /** Every write has its answer, in order, and without a stop copied grows by the bytes of the answers. */
  lemma {:induction false} PlayCopied(p: Playback, fragment: nat, total: nat, steps: seq<PlayStep>)
    requires fragment > 0
    ensures var (rs, q) := Play(p, fragment, total, steps);
            && |rs| == Writes(steps)
            && ((forall k :: 0 <= k < |steps| ==> !IsStop(steps[k])) ==> q.copied == p.copied + Bytes(rs))
    decreases |steps|
  {
    if steps != [] {
      var before, last := steps[..|steps| - 1], steps[|steps| - 1];
      PlayCopied(p, fragment, total, before);
      assert (forall k :: 0 <= k < |steps| ==> !IsStop(steps[k])) ==>
               forall k :: 0 <= k < |before| ==> !IsStop(before[k]);
      var (rs, q) := Play(p, fragment, total, before);
      var r := AfterPlay(q, fragment, total, last).0;
      if last.DoWrite? {
        WriteAnswers(q, fragment, total, last);
        assert (rs + r)[..|rs + r| - 1] == rs;
      } else {
        assert rs + r == rs;
        assert !IsStop(steps[|steps| - 1]) ==> AfterPlay(q, fragment, total, last).1.copied == q.copied;
      }
    }
  }

  /** After a stop nothing is copied and the whole buffer is free. */
  lemma StopResets(p: Playback, fragment: nat, total: nat, steps: seq<PlayStep>)
    requires fragment > 0 && steps != [] && IsStop(steps[|steps| - 1])
    ensures var q := Play(p, fragment, total, steps).1; q.copied == 0 && q.avail == total && q.outstanding == 0
  {}

  // What follows continues from the state before.
  lemma {:induction false} PlayAppend(p: Playback, fragment: nat, total: nat, xs: seq<PlayStep>, ys: seq<PlayStep>)
    requires fragment > 0
    ensures var (rs, q) := Play(p, fragment, total, xs);
            var (ss, r) := Play(q, fragment, total, ys);
            Play(p, fragment, total, xs + ys) == (rs + ss, r)
    decreases |ys|
  {
    var (rs, q) := Play(p, fragment, total, xs);
    if ys == [] {
      assert xs + ys == xs && rs + [] == rs;
    } else {
      var n := |ys| - 1;
      PlayAppend(p, fragment, total, xs, ys[..n]);
      assert (xs + ys)[..|xs + ys| - 1] == xs + ys[..n];
      var (ss, r) := Play(q, fragment, total, ys[..n]);
      assert rs + (ss + AfterPlay(r, fragment, total, ys[n]).0) == (rs + ss) + AfterPlay(r, fragment, total, ys[n]).0;
    }
  }

  /** Since the last stop, copied is the sum of what the writes have returned, whatever came before it. */
  lemma CopiedSinceStop(p: Playback, fragment: nat, total: nat, xs: seq<PlayStep>, ys: seq<PlayStep>)
    requires fragment > 0 && xs != [] && IsStop(xs[|xs| - 1]) && forall k :: 0 <= k < |ys| ==> !IsStop(ys[k])
    ensures Play(p, fragment, total, xs + ys).1.copied ==
            Bytes(Play(Play(p, fragment, total, xs).1, fragment, total, ys).0)
  {
    PlayAppend(p, fragment, total, xs, ys);
    StopResets(p, fragment, total, xs);
    PlayCopied(Play(p, fragment, total, xs).1, fragment, total, ys);
  }

  // ---- capture as a function ---------------------------------------------------------------

  /** taken: fragments read since the parameters were set. */
  datatype Capture = Capture(avail: int, received: nat, consumed: nat, taken: nat)

  datatype CaptureStep =
    | DoRead(bytes: nat, delivers: bool, got: nat, signals: nat)
    | DoReceive

  // AGM is asked and delivers. A negative number counts as huge in the comparison.
  predicate Delivered(c: Capture, step: CaptureStep) {
    step.DoRead? && !(c.avail >= 0 && step.bytes > c.avail) && step.delivers
  }

  // agm_compress_read, with the signals that arrive before it accounts for the data.
  function AfterRead(c: Capture, fragment: nat, step: CaptureStep): (ReadResult, Capture)
    requires fragment > 0 && step.DoRead?
  {
    if c.avail >= 0 && step.bytes > c.avail then (Invalid, c)
    else if !step.delivers then (SessionFailed, c)
    else
      var n := Fragments(step.got, fragment);
      (ReadOk(step.got),
       Capture(c.avail + step.signals * fragment - n * fragment, c.received + step.signals * fragment,
               c.consumed + step.got, c.taken + n))
  }

  function AfterReceive(c: Capture, fragment: nat): Capture {
    c.(avail := c.avail + fragment, received := c.received + fragment)
  }

  function AfterCapture(c: Capture, fragment: nat, step: CaptureStep): (seq<ReadResult>, Capture)
    requires fragment > 0
  {
    match step
    case DoRead(_, _, _, _) => var (r, d) := AfterRead(c, fragment, step); ([r], d)
    case DoReceive => ([], AfterReceive(c, fragment))
  }

  function Record(c: Capture, fragment: nat, steps: seq<CaptureStep>): (seq<ReadResult>, Capture)
    requires fragment > 0
  {
    if steps == [] then ([], c)
    else
      var (rs, d) := Record(c, fragment, steps[..|steps| - 1]);
      var (r, d') := AfterCapture(d, fragment, steps[|steps| - 1]);
      (rs + r, d')
  }

  /** Available are whole fragments: those received since base and not yet taken. */
  predicate Accounts(c: Capture, fragment: nat, base: int)
    requires fragment > 0
  {
    c.avail % fragment == 0 && c.received == base + c.avail + c.taken * fragment
  }

  // A read takes no more than was available, early signals included.
  predicate Covered(c: Capture, fragment: nat, step: CaptureStep) {
    Delivered(c, step) ==> step.got <= c.avail + step.signals * fragment
  }

  lemma StepAccounts(c: Capture, fragment: nat, step: CaptureStep, base: int)
    requires fragment > 0 && Accounts(c, fragment, base)
    ensures Accounts(AfterCapture(c, fragment, step).1, fragment, base)
  {
    match step
    case DoRead(_, _, got, signals) =>
      var n := Fragments(got, fragment);
      Spread(signals, 0, n, fragment);
      Spread(c.taken, n, 0, fragment);
      WholeFragments(c.avail, fragment, signals - n);
    case DoReceive =>
      WholeFragments(c.avail, fragment, 1);
  }

  lemma StepCovered(c: Capture, fragment: nat, step: CaptureStep)
    requires fragment > 0 && c.avail >= 0 && c.avail % fragment == 0
    ensures AfterCapture(c, fragment, step).1.avail >= 0 <==> Covered(c, fragment, step)
    ensures step.DoRead? && step.got <= step.bytes ==> Covered(c, fragment, step)
  {
    if step.DoRead? {
      var m := c.avail / fragment + step.signals;
      DivMod(c.avail, fragment);
      Spread(c.avail / fragment, step.signals, 0, fragment);
      FragmentsWithin(step.got, fragment, m);
      MulOrder(Fragments(step.got, fragment), m, fragment);
    }
  }

  // At the start and after every step.
  predicate NeverNegative(c: Capture, fragment: nat, steps: seq<CaptureStep>)
    requires fragment > 0
  {
    && Record(c, fragment, steps).1.avail >= 0
    && (steps == [] || NeverNegative(c, fragment, steps[..|steps| - 1]))
  }

  predicate AlwaysCovered(c: Capture, fragment: nat, steps: seq<CaptureStep>)
    requires fragment > 0
  {
    steps == [] ||
    var before := steps[..|steps| - 1];
    && AlwaysCovered(c, fragment, before)
    && Covered(Record(c, fragment, before).1, fragment, steps[|steps| - 1])
  }

  // AGM delivers no more than it is asked for.
  ghost predicate AlwaysHonest(steps: seq<CaptureStep>) {
    forall k :: 0 <= k < |steps| && steps[k].DoRead? ==> steps[k].got <= steps[k].bytes
  }

  /**
    Along a run the books hold, and what is available never becomes negative exactly if no read takes more than
    there is; the rounded-up subtraction is safe, in particular, if AGM delivers no more than it is asked for.
  */
  lemma {:induction false} RecordAccounts(c: Capture, fragment: nat, steps: seq<CaptureStep>, base: int)
    requires fragment > 0 && Accounts(c, fragment, base) && c.avail >= 0
    ensures Accounts(Record(c, fragment, steps).1, fragment, base)
    ensures NeverNegative(c, fragment, steps) <==> AlwaysCovered(c, fragment, steps)
    ensures AlwaysHonest(steps) ==> NeverNegative(c, fragment, steps)
    decreases |steps|
  {
    if steps != [] {
      var n := |steps| - 1;
      var before := steps[..n];
      var d := Record(c, fragment, before).1;
      RecordAccounts(c, fragment, before, base);
      StepAccounts(d, fragment, steps[n], base);
      if d.avail >= 0 {
        StepCovered(d, fragment, steps[n]);
      }
    }
  }

  /** The answer of a read: refused if it asks for more than there is, failed, or what AGM delivered. */
  lemma ReadAnswers(c: Capture, fragment: nat, step: CaptureStep)
    requires fragment > 0 && step.DoRead?
    ensures var (r, d) := AfterRead(c, fragment, step);
            && (r == Invalid <==> 0 <= c.avail < step.bytes)
            && (r == SessionFailed <==> r != Invalid && !step.delivers)
            && (r.ReadOk? ==> r.bytes == step.got && d.consumed == c.consumed + r.bytes)
            && (!r.ReadOk? ==> d == c)
  {}

  function Delivery(results: seq<ReadResult>): nat {
    if results == [] then 0
    else Delivery(results[..|results| - 1]) +
         match results[|results| - 1] case ReadOk(bytes) => bytes case _ => 0
  }

  // Fragments signalled at this step, given the state before.
  function Signalled(c: Capture, step: CaptureStep): nat {
    match step
    case DoReceive => 1
    case DoRead(_, _, _, signals) => if Delivered(c, step) then signals else 0
  }

  function SignalledIn(c: Capture, fragment: nat, steps: seq<CaptureStep>): nat
    requires fragment > 0
  {
    if steps == [] then 0
    else
      var before := steps[..|steps| - 1];
      SignalledIn(c, fragment, before) + Signalled(Record(c, fragment, before).1, steps[|steps| - 1])
  }

  /** Along a run consumed grows by the bytes the reads return, and received by a fragment for each signal. */
  lemma {:induction false} RecordCounts(c: Capture, fragment: nat, steps: seq<CaptureStep>)
    requires fragment > 0
    ensures var (rs, d) := Record(c, fragment, steps);
            && d.consumed == c.consumed + Delivery(rs)
            && d.received == c.received + SignalledIn(c, fragment, steps) * fragment
    decreases |steps|
  {
    if steps != [] {
      var before, last := steps[..|steps| - 1], steps[|steps| - 1];
      RecordCounts(c, fragment, before);
      var (rs, d) := Record(c, fragment, before);
      Spread(SignalledIn(c, fragment, before), Signalled(d, last), 0, fragment);
      if last.DoRead? {
        ReadAnswers(d, fragment, last);
        var r := AfterRead(d, fragment, last).0;
        assert (rs + [r])[..|rs + [r]| - 1] == rs;
      } else {
        assert rs + [] == rs;
      }
    }
  }

  class Stream {
    var dir: Direction
    var fragment: nat
    var count: nat
    var total: nat
    var avail: int
    var copied: nat
    var received: nat
    var consumed: nat
    var prepared: bool
    ghost var outstanding: int   // playback: fragments AGM has accepted and not yet signalled
    ghost var taken: nat         // capture: fragments read since the parameters were set
    ghost var receivedBefore: nat

    ghost predicate Shape()
      reads this
    {
      fragment > 0 && total == count * fragment
    }

    ghost function Played(): Playback
      reads this
    {
      Playback(avail, outstanding, copied, prepared)
    }

    ghost predicate PlaybackBooks()
      reads this
    {
      Shape() && Balances(Played(), count, fragment)
    }

    ghost function Captured(): Capture
      reads this
    {
      Capture(avail, received, consumed, taken)
    }

    ghost predicate CaptureBooks()
      reads this
    {
      Shape() && avail >= 0 && Accounts(Captured(), fragment, receivedBefore)
    }

    constructor (dir: Direction)
      ensures this.dir == dir && !prepared && avail == 0 && copied == 0
    {
      this.dir := dir;
      fragment, count, total, avail := 0, 0, 0, 0;
      copied, received, consumed, prepared := 0, 0, 0, false;
      outstanding, taken, receivedBefore := 0, 0, 0;
    }

    method SetParams(fragments: nat, fragmentSize: nat)
      modifies this
      ensures fragment == fragmentSize && count == fragments && dir == old(dir)
      ensures outstanding == 0 && prepared == old(prepared)
      ensures fragmentSize > 0 ==> if dir == RX then PlaybackBooks() && avail == total else CaptureBooks()
    {
      count := fragments;
      fragment := fragmentSize;
      total := fragment * count;
      avail := if dir == RX then total else 0;
      outstanding, taken, receivedBefore := 0, 0, received;
    }

    /** AGM_EVENT_WRITE_DONE; polled: whether the poller is woken up. */
    method WriteDone() returns (polled: bool)
      modifies this`avail, this`outstanding
      ensures Played() == AfterSignal(old(Played()), fragment)
      ensures polled <==> 0 <= avail <= total
      ensures old(PlaybackBooks()) ==> PlaybackBooks()
    {
      avail := avail + fragment;
      outstanding := outstanding - 1;
      Spread(count - outstanding - 1, 1, 0, fragment);
      // a signed value compared with an unsigned one: below zero counts as huge
      if avail < 0 || avail > total {
        return false;
      }
      return true;
    }

    /** AGM_EVENT_READ_DONE */
    method ReadDone()
      modifies this`avail, this`received
      ensures Captured() == AfterReceive(old(Captured()), fragment)
    {
      avail := avail + fragment;
      received := received + fragment;
    }

    /**
      agm_compress_write. AGM takes accepted bytes; signals of finished fragments may arrive before the call
      gets the lock to account for them.
    */
    method Write(bytes: nat, prepares: bool, writes: bool, accepted: nat, signals: nat) returns (r: WriteResult)
      requires Shape()
      modifies this`prepared, this`avail, this`outstanding, this`copied
      ensures Shape()
      ensures (r, Played()) ==
              AfterWrite(old(Played()), fragment, total, DoWrite(bytes, prepares, writes, accepted, signals))
    {
      if bytes > total {
        return TooLarge;
      }
      if !prepared {
        if !prepares {
          return SessionError;
        }
        prepared := true;
      }
      if !writes {
        return SessionError;
      }
      ghost var n := Fragments(accepted, fragment);
      outstanding := outstanding + n;
      var k := 0;
      while k < signals
        invariant prepared && copied == old(copied)
        invariant 0 <= k <= signals && outstanding == old(outstanding) + n - k
        invariant avail == old(avail) + k * fragment
      {
        Spread(k, 1, 0, fragment);
        var _ := WriteDone();
        k := k + 1;
      }
      var bufCnt := accepted / fragment;
      if accepted % fragment != 0 {
        bufCnt := bufCnt + 1;
      }
      avail := avail - bufCnt * fragment;
      assert bufCnt == n;
      if avail < 0 {
        return Overrun;
      }
      copied := copied + accepted;
      return Written(accepted);
    }

    method Stop(stops: bool) returns (ok: bool)
      requires Shape()
      modifies this`avail, this`copied, this`outstanding
      ensures ok == stops && Played() == AfterStop(old(Played()), total, stops)
    {
      if !stops {
        return false;
      }
      avail := total;
      copied := 0;
      outstanding := 0;
      return true;
    }

    /** agm_compress_read. */
    method Read(bytes: nat, delivers: bool, got: nat, signals: nat) returns (r: ReadResult)
      requires Shape()
      modifies this`avail, this`received, this`consumed, this`taken
      ensures Shape()
      ensures (r, Captured()) == AfterRead(old(Captured()), fragment, DoRead(bytes, delivers, got, signals))
    {
      if avail >= 0 && bytes > avail {
        return Invalid;
      }
      if !delivers {
        return SessionFailed;
      }
      var k := 0;
      while k < signals
        invariant 0 <= k <= signals && avail == old(avail) + k * fragment
        invariant received == old(received) + k * fragment
        invariant consumed == old(consumed) && taken == old(taken)
      {
        Spread(k, 1, 0, fragment);
        ReadDone();
        k := k + 1;
      }
      var bufCnt := got / fragment;
      if got % fragment != 0 {
        bufCnt := bufCnt + 1;
      }
      avail := avail - bufCnt * fragment;
      taken := taken + bufCnt;
      consumed := consumed + got;
      return ReadOk(got);
    }

    // ---- runs ------------------------------------------------------------------------------

    method RunPlayback(steps: seq<PlayStep>) returns (results: seq<WriteResult>)
      requires Shape()
      modifies this`prepared, this`avail, this`outstanding, this`copied
      ensures Shape() && (results, Played()) == Play(old(Played()), fragment, total, steps)
    {
      ghost var p := Played();
      results := [];
      var i := 0;
      while i < |steps|
        invariant 0 <= i <= |steps| && Shape()
        invariant (results, Played()) == Play(p, fragment, total, steps[..i])
      {
        assert steps[..i + 1][..i] == steps[..i];
        match steps[i] {
          case DoWrite(bytes, prepares, writes, accepted, signals) =>
            var r := Write(bytes, prepares, writes, accepted, signals);
            results := results + [r];
          case DoSignal =>
            var _ := WriteDone();
            assert results + [] == results;
          case DoStop(stops) =>
            var _ := Stop(stops);
            assert results + [] == results;
        }
        i := i + 1;
      }
      assert steps[..|steps|] == steps;
    }

    method RunCapture(steps: seq<CaptureStep>) returns (results: seq<ReadResult>)
      requires Shape()
      modifies this`avail, this`received, this`consumed, this`taken
      ensures Shape() && (results, Captured()) == Record(old(Captured()), fragment, steps)
    {
      ghost var c := Captured();
      results := [];
      var i := 0;
      while i < |steps|
        invariant 0 <= i <= |steps| && Shape()
        invariant (results, Captured()) == Record(c, fragment, steps[..i])
      {
        assert steps[..i + 1][..i] == steps[..i];
        match steps[i] {
          case DoRead(bytes, delivers, got, signals) =>
            var r := Read(bytes, delivers, got, signals);
            results := results + [r];
          case DoReceive =>
            ReadDone();
            assert results + [] == results;
        }
        i := i + 1;
      }
      assert steps[..|steps|] == steps;
    }
  }
}
