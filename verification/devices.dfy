/** The reference-counted PCM device shared by all sessions (service/src/device.c). */
module Devices {

  // Return codes, one constructor per cause; the errno of the source is noted where it has a fixed one.
  datatype Status =
    | Ok
    | NotPrepared   // -1 of device_start
    | NoInterface   // -1 / -EINVAL / -EPIPE: no audio interface in a usable state
    | Invalid       // -EINVAL
    | Already       // -EALREADY
    | NoMemory      // -ENOMEM
    | DriverError   // -EIO or the code of a failed pcm_* call
    | GraphError    // the code of a failed graph_* call

  datatype DevState = DevClosed | DevOpened | DevPrepared | DevStarted | DevStopped

  function DevRank(s: DevState): nat {
    match s
    case DevClosed => 0
    case DevOpened => 1
    case DevPrepared => 2
    case DevStarted => 3
    case DevStopped => 4
  }

  /** The fields of a device as a value. `handles` counts successful pcm_open calls minus pcm_close calls. */
  datatype Counters = Counters(state: DevState, open: int, prepare: int, start: int, handles: int) {

    ghost predicate Consistent() {
      && open >= 0 && prepare >= 0 && start >= 0
      && (open == 0 ==> prepare == 0)
      && (prepare == 0 ==> start == 0)
      && (state == DevClosed <==> open == 0)
      && (state == DevOpened <==> open > 0 && prepare == 0)
      && (state == DevStarted <==> start > 0)
      && handles == (if open > 0 then 1 else 0)
    }
  }

  // What each call does to the fields when the driver call it makes (if any) succeeds.

  function AfterOpen(c: Counters): Counters {
    if c.open != 0 then c.(open := c.open + 1)
    else c.(state := DevOpened, open := c.open + 1, handles := c.handles + 1)
  }

  function AfterPrepare(c: Counters): Counters {
    if c.prepare != 0 then c.(prepare := c.prepare + 1)
    else c.(state := DevPrepared, prepare := c.prepare + 1)
  }

  function AfterStart(c: Counters): Counters {
    if c.start != 0 then c.(start := c.start + 1)
    else c.(state := DevStarted, start := c.start + 1)
  }

  function AfterStop(c: Counters): Counters {
    if c.start == 0 then c
    else if c.start == 1 then c.(state := DevStopped, start := 0)
    else c.(start := c.start - 1)
  }

  function AfterClose(c: Counters): Counters {
    if c.open == 1 then Counters(DevClosed, 0, 0, 0, c.handles - 1)
    else c.(open := c.open - 1)
  }

  predicate StartRefused(c: Counters) { DevRank(c.state) < DevRank(DevPrepared) }

  class Device {
    var state: DevState
    var open: int
    var prepare: int
    var start: int
    ghost var handles: int

    ghost function Snapshot(): Counters
      reads this
    {
      Counters(state, open, prepare, start, handles)
    }

    constructor ()
      ensures Snapshot() == Counters(DevClosed, 0, 0, 0, 0)
      ensures Snapshot().Consistent()
    {
      state, open, prepare, start, handles := DevClosed, 0, 0, 0, 0;
    }

    method Open(pcmOpens: bool) returns (r: Status)
      modifies this
      ensures r == if old(open) != 0 || pcmOpens then Ok else DriverError
      ensures Snapshot() == if r == Ok then AfterOpen(old(Snapshot())) else old(Snapshot())
    {
      if open != 0 {
        open := open + 1;
        return Ok;
      }
      if !pcmOpens {
        return DriverError;
      }
      handles := handles + 1;
      state := DevOpened;
      open := open + 1;
      return Ok;
    }

    method Prepare(pcmPrepares: bool) returns (r: Status)
      modifies this
      ensures r == if old(prepare) != 0 || pcmPrepares then Ok else DriverError
      ensures Snapshot() == if r == Ok then AfterPrepare(old(Snapshot())) else old(Snapshot())
    {
      if prepare != 0 {
        prepare := prepare + 1;
        return Ok;
      }
      if !pcmPrepares {
        return DriverError;
      }
      state := DevPrepared;
      prepare := prepare + 1;
      return Ok;
    }

    method Start() returns (r: Status)
      modifies this
      ensures r == if StartRefused(old(Snapshot())) then NotPrepared else Ok
      ensures Snapshot() == if r == Ok then AfterStart(old(Snapshot())) else old(Snapshot())
    {
      if DevRank(state) < DevRank(DevPrepared) {
        return NotPrepared;
      }
      if start != 0 {
        start := start + 1;
        return Ok;
      }
      state := DevStarted;
      start := start + 1;
      return Ok;
    }

    // A failing pcm_stop is reported, yet the device counts as stopped all the same.
    method Stop(pcmStops: bool) returns (r: Status)
      modifies this
      ensures r == if old(start) == 1 && !pcmStops then DriverError else Ok
      ensures Snapshot() == AfterStop(old(Snapshot()))
    {
      if start == 0 {
        return Ok;
      }
      r := Ok;
      start := start - 1;
      if start == 0 {
        r := if pcmStops then Ok else DriverError;
        state := DevStopped;
      }
    }

    // The count is decremented before it is tested, so a call on a closed device leaves -1 behind.
    method Close(pcmCloses: bool) returns (r: Status)
      modifies this
      ensures r == if old(open) == 1 && !pcmCloses then DriverError else Ok
      ensures Snapshot() == AfterClose(old(Snapshot()))
    {
      r := Ok;
      open := open - 1;
      if open == 0 {
        handles := handles - 1;
        r := if pcmCloses then Ok else DriverError;
        state := DevClosed;
        prepare := 0;
        start := 0;
      }
    }
  }

  // ---- runs of a single device -------------------------------------------------------------

  datatype DevCall = CallOpen(ok: bool) | CallPrepare(ok: bool) | CallStart | CallStop(ok: bool) | CallClose(ok: bool)

  function Step(c: Counters, call: DevCall): Counters {
    match call
    case CallOpen(ok) => if c.open != 0 || ok then AfterOpen(c) else c
    case CallPrepare(ok) => if c.prepare != 0 || ok then AfterPrepare(c) else c
    case CallStart => if StartRefused(c) then c else AfterStart(c)
    case CallStop(_) => AfterStop(c)
    case CallClose(_) => AfterClose(c)
  }

  /** A caller can tell beforehand: prepare and close need an open device, unless the prepare fails. */
  predicate Proper(c: Counters, call: DevCall) {
    match call
    case CallPrepare(ok) => c.open > 0 || !ok
    case CallClose(_) => c.open > 0
    case _ => true
  }

  ghost predicate AllProper(c: Counters, calls: seq<DevCall>)
    decreases calls
  {
    calls == [] || (Proper(c, calls[0]) && AllProper(Step(c, calls[0]), calls[1..]))
  }

  ghost predicate AlwaysConsistent(c: Counters, calls: seq<DevCall>)
    decreases calls
  {
    c.Consistent() && (calls == [] || AlwaysConsistent(Step(c, calls[0]), calls[1..]))
  }

  lemma StepConsistent(c: Counters, call: DevCall)
    requires c.Consistent()
    ensures Step(c, call).Consistent() <==> Proper(c, call)
  {
  }

  /** The reference-count machine is consistent along a whole run exactly when every call was proper. */
  lemma {:induction false} RunConsistent(c: Counters, calls: seq<DevCall>)
    requires c.Consistent()
    ensures AlwaysConsistent(c, calls) <==> AllProper(c, calls)
    decreases calls
  {
    if calls != [] {
      StepConsistent(c, calls[0]);
      if Proper(c, calls[0]) {
        RunConsistent(Step(c, calls[0]), calls[1..]);
      }
    }
  }

  /** Opening and closing again undoes the open, on a consistent device. */
  lemma CloseUndoesOpen(c: Counters)
    requires c.Consistent()
    ensures AfterClose(AfterOpen(c)) == c
  {
  }
}
