/** The service: every session and every device, and the calls a client makes (service/src/agm.c, session_obj.c). */
module Service {
  import opened Common
  import opened Devices
  import opened Cells
  import opened SessionSpec
  import opened Sessions
  import opened Worlds
  import opened Runs

  lemma OneMore<T>(s: seq<T>, k: nat, x: T)
    requires k < |s| && s[k] == x
    ensures s[..k] + [x] == s[..k + 1]
  {}

  class AgmService {
    const devices: seq<Device>
    var sessions: seq<Session>

    ghost function Abs(): World
      reads this, sessions, devices
    {
      World(
        seq(|sessions|, i requires 0 <= i < |sessions| reads this, sessions =>
          SessView(sessions[i].id, sessions[i].dir, sessions[i].state, sessions[i].pool)),
        seq(|devices|, j requires 0 <= j < |devices| reads devices => devices[j].Snapshot()))
    }

    ghost predicate Valid()
      reads this, sessions
    {
      && (forall i, j :: 0 <= i < j < |devices| ==> devices[i] != devices[j])
      && (forall i, k :: 0 <= i < k < |sessions| ==> sessions[i] != sessions[k])
      && (forall i :: 0 <= i < |sessions| ==> sessions[i].devices == devices && sessions[i].Valid())
    }

    constructor (devices: seq<Device>)
      requires forall i, j :: 0 <= i < j < |devices| ==> devices[i] != devices[j]
      requires forall d :: d in devices ==> d.Snapshot() == Counters(DevClosed, 0, 0, 0, 0)
      ensures this.devices == devices && Valid() && Abs() == NewWorld(|devices|)
    {
      this.devices := devices;
      sessions := [];
      new;
      assert Abs().devs == NewWorld(|devices|).devs;
    }

    // Only session i and the devices changed.
    twostate lemma SessionMoved(i: nat)
      requires old(Valid()) && i < |sessions| && sessions == old(sessions)
      requires sessions[i].Valid() && sessions[i].dir == old(sessions[i].dir)
      requires forall k :: 0 <= k < |sessions| && k != i ==> unchanged(sessions[k])
      ensures Valid()
      ensures Abs() == MovedTo(old(Abs()), i, sessions[i].View(), sessions[i].state)
    {
      assert sessions[i].View().devs == Abs().devs;
    }

    lemma Seen(i: nat)
      requires Valid() && i < |sessions|
      ensures Abs().Shaped() && sessions[i].View() == Abs().ViewOf(i)
    {
      assert sessions[i].View().devs == Abs().devs;
    }

    lemma AllShaped()
      requires Valid()
      ensures Abs().Shaped()
    {
      forall i | 0 <= i < |sessions| ensures Abs().ViewOf(i).Shape() {
        assert sessions[i].Valid();
      }
    }

    /** session_obj_get: the session with this id, created on first use. */
    method GetSession(id: nat, memory: bool) returns (r: Status, i: nat)
      requires Valid()
      modifies this`sessions
      ensures Valid() && old(sessions) <= sessions
      ensures forall k :: |old(sessions)| <= k < |sessions| ==> fresh(sessions[k])
      ensures i == Find(old(Abs()).sessions, id)
      ensures r == if i < |old(sessions)| || memory then Ok else NoMemory
      ensures Abs() == if r == Ok then WithSession(old(Abs()), id) else old(Abs())
      ensures r == Ok ==> i < |sessions|
    {
      ghost var w := Abs();
      i := 0;
      while i < |sessions|
        invariant i <= |sessions| && forall k :: 0 <= k < i ==> sessions[k].id != id
      {
        assert w.sessions[i].id == sessions[i].id;
        if sessions[i].id == id {
          assert i == Find(w.sessions, id);
          return Ok, i;
        }
        i := i + 1;
      }
      assert forall k :: 0 <= k < |w.sessions| ==> w.sessions[k].id == sessions[k].id;
      assert i == Find(w.sessions, id);
      if !memory {
        return NoMemory, i;
      }
      var s := new Session(id, devices);
      sessions := sessions + [s];
      assert Abs() == World(w.sessions + [NewSession(id)], w.devs);
      return Ok, i;
    }

    method SetConfig(i: nat, dir: Direction)
      requires Valid() && i < |sessions|
      modifies sessions[i]
      ensures Valid()
      ensures Abs() == World(old(Abs()).sessions[i := old(Abs()).sessions[i].(dir := dir)], old(Abs()).devs)
    {
      sessions[i].dir := dir;
    }

    // The call on its session alone.
    static method RunOn(s: Session, call: Call, a: Answers) returns (r: Status)
      requires s.Valid() && OnHandle(call) && !call.CSetConfig?
      modifies s`state, s`pool, s.devices
      ensures s.Valid() && s.Result(r) == HandleEffect(call, old(s.View()), old(s.state), s.dir, a)
    {
      match call {
        case CPrepare(_) => r := s.Prepare(a);
        case CStart(_) => r := s.Start(a);
        case CStop(_) => r := s.Stop(a);
        case CClose(_) => r := s.Close(a);
      }
    }

    /** The calls on a handle. */
    method OnSession(call: Call, a: Answers) returns (r: Status)
      requires Valid() && OnHandle(call)
      modifies sessions, devices
      ensures Valid() && sessions == old(sessions) && old(Abs()).Shaped()
      ensures Done(r, Plain, Abs()) == HandleAt(old(Abs()), call, a)
    {
      AllShaped();
      if call.h >= |sessions| {
        return Invalid;
      }
      Seen(call.h);
      if call.CSetConfig? {
        SetConfig(call.h, call.dir);
        return Ok;
      }
      r := RunOn(sessions[call.h], call, a);
      SessionMoved(call.h);
    }

    method OpenSession(i: nat, a: Answers) returns (r: Status)
      requires Valid() && i < |sessions|
      modifies sessions, devices
      ensures Valid() && sessions == old(sessions) && old(Abs()).Shaped()
      ensures r == OpenAt(old(Abs()), i, a).r && Abs() == OpenAt(old(Abs()), i, a).w
    {
      Seen(i);
      r := sessions[i].Open(a);
      SessionMoved(i);
    }

    method LinkSession(i: nat, aif: nat, on: bool, a: Answers) returns (r: Status)
      requires Valid() && i < |sessions| && aif < |devices|
      modifies sessions, devices
      ensures Valid() && sessions == old(sessions) && old(Abs()).Shaped()
      ensures r == LinkAt(old(Abs()), i, aif, on, a).r && Abs() == LinkAt(old(Abs()), i, aif, on, a).w
    {
      Seen(i);
      r := sessions[i].SetAif(aif, on, a);
      SessionMoved(i);
    }

    method GetAif(i: nat, aif: nat, a: Answers) returns (r: Status)
      requires Valid() && i < |sessions| && aif < |devices|
      modifies sessions
      ensures Valid() && sessions == old(sessions) && old(Abs()).Shaped()
      ensures Done(r, Plain, Abs()) == GetAifAt(old(Abs()), i, aif, a)
    {
      Seen(i);
      MovedNowhere(Abs(), i);
      var k;
      r, k := sessions[i].GetAif(aif, a.aifMemory);
      SessionMoved(i);
    }

    method OnFound(call: Call, i: nat, a: Answers) returns (r: Status)
      requires Valid() && i < |sessions| && !OnHandle(call) && Fits(call, |devices|)
      modifies sessions, devices
      ensures Valid() && sessions == old(sessions) && old(Abs()).Shaped()
      ensures r == PerformAt(old(Abs()), i, call, a).r && Abs() == PerformAt(old(Abs()), i, call, a).w
    {
      AllShaped();
      match call {
        case COpen(_) => r := OpenSession(i, a);
        case CLink(_, aif, on) => r := LinkSession(i, aif, on, a);
        case CGetAif(_, aif) => r := GetAif(i, aif, a);
        case CGetSession(_) => r := Ok;
      }
    }

    /** agm_session_open, agm_session_aif_connect and the calls that just look up a session or an AIF. */
    method OnId(call: Call, a: Answers) returns (r: Status)
      requires Valid() && !OnHandle(call) && Fits(call, |devices|)
      modifies this`sessions, sessions, devices
      ensures Valid() && old(sessions) <= sessions
      ensures forall k :: |old(sessions)| <= k < |sessions| ==> fresh(sessions[k])
      ensures old(Abs()).Shaped()
      ensures r == PerformCall(old(Abs()), call, a).r && Abs() == PerformCall(old(Abs()), call, a).w
    {
      AllShaped();
      WithSessionShaped(Abs(), call.id);
      var i;
      r, i := GetSession(call.id, a.sessionMemory);
      if r == Ok {
        r := OnFound(call, i, a);
      }
    }

    method ExecuteCall(call: Call, a: Answers) returns (r: Status)
      requires Valid() && Fits(call, |devices|)
      modifies this`sessions, sessions, devices
      ensures Valid() && old(sessions) <= sessions
      ensures forall k :: |old(sessions)| <= k < |sessions| ==> fresh(sessions[k])
      ensures old(Abs()).Shaped()
      ensures r == PerformCall(old(Abs()), call, a).r && Abs() == PerformCall(old(Abs()), call, a).w
    {
      if OnHandle(call) {
        r := OnSession(call, a);
      } else {
        r := OnId(call, a);
      }
    }

    /** Any call a client can make. The lookup of a loopback's playback session may create that, too. */
    method Execute(call: Call, a: Answers) returns (r: Status)
      requires Valid() && Fits(call, |devices|)
      modifies this`sessions, sessions, devices
      ensures Valid() && old(sessions) <= sessions
      ensures forall k :: |old(sessions)| <= k < |sessions| ==> fresh(sessions[k])
      ensures old(Abs()).Shaped()
      ensures r == Perform(old(Abs()), call, a).r && Abs() == Perform(old(Abs()), call, a).w
    {
      r := ExecuteCall(call, a);
      if a.playback.Some? && MayLookUp(call) {
        var _, _ := GetSession(a.playback.value, true);
      }
    }

    // Call k of a run from w, after the ones that returned results.
    method ExecuteNext(calls: seq<Call>, answers: seq<Answers>, k: nat, ghost w: World, results: seq<Status>)
      returns (results': seq<Status>)
      requires Valid() && w.Shaped() && k < |calls| == |answers| && AllFit(calls, |w.devs|)
      requires Abs() == States(w, calls, answers)[k] && results == Returns(w, calls, answers)[..k]
      modifies this`sessions, sessions, devices
      ensures Valid() && old(sessions) <= sessions
      ensures forall i :: |old(sessions)| <= i < |sessions| ==> fresh(sessions[i])
      ensures Abs() == States(w, calls, answers)[k + 1] && results' == Returns(w, calls, answers)[..k + 1]
    {
      assert |devices| == |Abs().devs|;
      var r := Execute(calls[k], answers[k]);
      results' := results + [r];
      OneMore(Returns(w, calls, answers), k, r);
    }

    // The first k calls, from w.
    method RunFrom(calls: seq<Call>, answers: seq<Answers>, k: nat, ghost w: World) returns (results: seq<Status>)
      requires Valid() && k <= |calls| == |answers| && AllFit(calls, |devices|) && w == Abs() && w.Shaped()
      modifies this`sessions, sessions, devices
      ensures Valid() && old(sessions) <= sessions
      ensures forall i :: |old(sessions)| <= i < |sessions| ==> fresh(sessions[i])
      ensures Abs() == States(w, calls, answers)[k] && results == Returns(w, calls, answers)[..k]
      decreases k
    {
      results := [];
      if k > 0 {
        results := RunFrom(calls, answers, k - 1, w);
        results := ExecuteNext(calls, answers, k - 1, w, results);
      }
    }

    /** Any calls, in any order, whatever the outside answers: states and return codes are those of Perform. */
    method Run(calls: seq<Call>, answers: seq<Answers>) returns (results: seq<Status>)
      requires Valid() && |calls| == |answers| && AllFit(calls, |devices|)
      modifies this`sessions, sessions, devices
      ensures Valid() && old(Abs()).Shaped()
      ensures Abs() == States(old(Abs()), calls, answers)[|calls|]
      ensures results == Returns(old(Abs()), calls, answers)
    {
      AllShaped();
      results := RunFrom(calls, answers, |calls|, Abs());
    }
  }
}
