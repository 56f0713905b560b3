/**
  The end-of-stream handshake of a compressed stream (plugins/tinyalsa/src/agm_compress_plugin.c): one
  drainer against event callbacks, stop and close, step by step under eos_lock.
*/
module Drain {

  datatype Owner = Free | ByDrainer | ByOther

  // Where agm_compress_drain is.
  datatype DrainPc =
    | Idle
    | Locked     // holds the lock
    | EosSet     // has set eos and issues the EOS command, still with the lock
    | Waiting    // in pthread_cond_wait
    | Woken      // signalled, but without the lock yet
    | Leaving    // has the lock back

  // Where the callback or stop that holds the lock is.
  datatype OtherPc = Outside | Checking | Signalled | Cleared

  /**
    stale: eos is left over from a failed EOS command. signals: wake-ups of the current drain.
    lost: signals sent while nobody waited.
  */
  datatype State = State(owner: Owner, eos: bool, drainer: DrainPc, other: OtherPc,
                         stale: bool, signals: nat, lost: nat, failures: nat)

  const INITIAL := State(Free, false, Idle, Outside, false, 0, 0, 0)

  datatype Action =
    | DrainLock | DrainSetEos | DrainEosFails | DrainWait | DrainWake | DrainLeave
    | OtherLock | OtherSignal | OtherClear | OtherSkip | OtherUnlock

  predicate Enabled(s: State, a: Action) {
    match a
    case DrainLock => s.drainer == Idle && s.owner == Free
    case DrainSetEos => s.drainer == Locked
    case DrainEosFails => s.drainer == EosSet
    case DrainWait => s.drainer == EosSet
    case DrainWake => s.drainer == Woken && s.owner == Free
    case DrainLeave => s.drainer == Leaving
    case OtherLock => s.other == Outside && s.owner == Free
    case OtherSignal => s.other == Checking && s.eos
    case OtherClear => s.other == Signalled
    case OtherSkip => s.other == Checking && !s.eos
    case OtherUnlock => s.other == Cleared
  }

  function Next(s: State, a: Action): State
    requires Enabled(s, a)
  {
    match a
    case DrainLock => s.(owner := ByDrainer, drainer := Locked, signals := 0)
    case DrainSetEos => s.(eos := true, drainer := EosSet)
    case DrainEosFails => s.(owner := Free, drainer := Idle, stale := true, failures := s.failures + 1)
    case DrainWait => s.(owner := Free, drainer := Waiting, stale := false)
    case DrainWake => s.(owner := ByDrainer, drainer := Leaving)
    case DrainLeave => s.(owner := Free, drainer := Idle)
    case OtherLock => s.(owner := ByOther, other := Checking)
    case OtherSignal =>
      if s.drainer == Waiting then s.(drainer := Woken, signals := s.signals + 1, other := Signalled)
      else s.(lost := s.lost + 1, other := Signalled)
    case OtherClear => s.(eos := false, stale := false, other := Cleared)
    case OtherSkip => s.(other := Cleared)
    case OtherUnlock => s.(owner := Free, other := Outside)
  }

  /** s is reached from the start by these actions, in any interleaving. */
  ghost predicate Reached(s: State, actions: seq<Action>)
    decreases |actions|
  {
    if actions == [] then s == INITIAL
    else
      var a := actions[|actions| - 1];
      exists p :: Reached(p, actions[..|actions| - 1]) && Enabled(p, a) && s == Next(p, a)
  }

  ghost predicate Inv(s: State) {
    && (s.owner == ByDrainer <==> s.drainer in {Locked, EosSet, Leaving})
    && (s.owner == ByOther <==> s.other != Outside)
    // eos means that someone waits, unless it is stale or about to be used or cleared
    && (s.other in {Outside, Checking} && s.drainer != EosSet ==> (s.eos <==> s.drainer == Waiting || s.stale))
    && (s.drainer == EosSet ==> s.eos)
    && (s.other == Signalled ==> s.eos && s.drainer != Waiting)
    && (s.other == Cleared ==> !s.eos && !s.stale && s.drainer != Waiting)
    && (s.stale ==> s.drainer in {Idle, Locked, EosSet})
    && s.signals == (if s.drainer in {Locked, EosSet, Waiting} then 0
                     else if s.drainer in {Woken, Leaving} then 1
                     else s.signals)
    && s.signals <= 1
    && (s.failures == 0 ==> !s.stale && s.lost == 0)
  }

  lemma StepKeepsInv(s: State, a: Action)
    requires Inv(s) && Enabled(s, a)
    ensures Inv(Next(s, a))
  {}

  lemma {:induction false} ReachedInv(s: State, actions: seq<Action>)
    requires Reached(s, actions)
    ensures Inv(s)
    decreases |actions|
  {
    if actions != [] {
      var a := actions[|actions| - 1];
      var p :| Reached(p, actions[..|actions| - 1]) && Enabled(p, a) && s == Next(p, a);
      ReachedInv(p, actions[..|actions| - 1]);
      StepKeepsInv(p, a);
    }
  }

  /**
    In every interleaving: with the lock free, eos holds exactly if the drainer is blocked in its wait or a
    failed EOS command left it behind; no drain is signalled twice; and no signal is lost before a failure.
  */
  lemma EosMeansWaiting(s: State, actions: seq<Action>)
    requires Reached(s, actions)
    ensures s.owner == Free ==> (s.eos <==> s.drainer == Waiting || s.stale)
    ensures s.owner == Free && s.eos && !s.stale ==> s.drainer == Waiting && s.signals == 0
    ensures s.signals <= 1
    ensures s.failures == 0 ==> !s.stale && s.lost == 0
  {
    ReachedInv(s, actions);
  }

  // ---- exactly which signals are lost ------------------------------------------------------

  /** A failed EOS command is the last of the actions that decide whether eos is stale. */
  predicate StaleAfter(actions: seq<Action>) {
    if actions == [] then false
    else
      match actions[|actions| - 1]
      case DrainEosFails => true
      case DrainWait => false
      case OtherClear => false
      case _ => StaleAfter(actions[..|actions| - 1])
  }

  // The signals sent while eos is stale.
  function StaleSignals(actions: seq<Action>): nat {
    if actions == [] then 0
    else
      var before := actions[..|actions| - 1];
      StaleSignals(before) + if actions[|actions| - 1] == OtherSignal && StaleAfter(before) then 1 else 0
  }

  /** A step loses a signal exactly if it signals while eos is left over from a failed EOS command. */
  lemma StepLoses(s: State, actions: seq<Action>, a: Action)
    requires Reached(s, actions) && Enabled(s, a)
    ensures Next(s, a).lost == s.lost + if a == OtherSignal && s.stale then 1 else 0
  {
    ReachedInv(s, actions);
  }

  /** In every interleaving: the lost signals are those sent between a failed EOS command and the next wait or clear. */
  lemma {:induction false} LostExactly(s: State, actions: seq<Action>)
    requires Reached(s, actions)
    ensures s.stale <==> StaleAfter(actions)
    ensures s.lost == StaleSignals(actions)
    decreases |actions|
  {
    if actions != [] {
      var before, a := actions[..|actions| - 1], actions[|actions| - 1];
      var p :| Reached(p, before) && Enabled(p, a) && s == Next(p, a);
      LostExactly(p, before);
      StepLoses(p, before, a);
      ReachedInv(p, before);
    }
  }

  /** Once the drainer waits, the next callback or stop wakes it, whatever came before. */
  lemma NextOtherWakes(s: State, actions: seq<Action>)
    requires Reached(s, actions) && s.drainer == Waiting && s.owner == Free
    ensures Enabled(s, OtherLock)
    ensures var s1 := Next(s, OtherLock);
            && Enabled(s1, OtherSignal) && !Enabled(s1, OtherSkip)
            && Next(s1, OtherSignal).drainer == Woken && Next(s1, OtherSignal).lost == s.lost
  {
    ReachedInv(s, actions);
  }

  /** The drainer can only come out of its wait through a signal, and then it does leave. */
  lemma WokenLeaves(s: State, actions: seq<Action>)
    requires Reached(s, actions) && s.drainer == Woken
    ensures s.signals == 1
    ensures s.owner != ByDrainer
    ensures s.owner == Free ==>
              && Enabled(s, DrainWake) && Enabled(Next(s, DrainWake), DrainLeave)
              && Next(Next(s, DrainWake), DrainLeave) == s.(drainer := Idle)
    ensures s.owner == Free ==> !s.eos
  {
    ReachedInv(s, actions);
  }

  const FAILED_DRAIN := [DrainLock, DrainSetEos, DrainEosFails]

  /** After a failed EOS command eos is set with nobody waiting, and the next callback signals in vain. */
  lemma FailedEosGoesStale()
    ensures exists s :: Reached(s, FAILED_DRAIN) && s.owner == Free && s.eos && s.drainer == Idle
    ensures exists s :: Reached(s, FAILED_DRAIN + [OtherLock] + [OtherSignal]) && s.lost == 1
  {
    var s1 := Next(INITIAL, DrainLock);
    var s2 := Next(s1, DrainSetEos);
    var s3 := Next(s2, DrainEosFails);
    assert Reached(INITIAL, []);
    Extend(INITIAL, [], DrainLock);
    assert [] + [DrainLock] == [DrainLock];
    Extend(s1, [DrainLock], DrainSetEos);
    assert [DrainLock] + [DrainSetEos] == [DrainLock, DrainSetEos];
    Extend(s2, [DrainLock, DrainSetEos], DrainEosFails);
    assert [DrainLock, DrainSetEos] + [DrainEosFails] == FAILED_DRAIN;
    Extend(s3, FAILED_DRAIN, OtherLock);
    Extend(Next(s3, OtherLock), FAILED_DRAIN + [OtherLock], OtherSignal);
    assert Next(Next(s3, OtherLock), OtherSignal).lost == 1;
  }

  lemma Extend(s: State, actions: seq<Action>, a: Action)
    requires Reached(s, actions) && Enabled(s, a)
    ensures Reached(Next(s, a), actions + [a])
  {
    var more := actions + [a];
    assert more[..|more| - 1] == actions && more[|more| - 1] == a;
    assert Reached(s, more[..|more| - 1]) && Enabled(s, more[|more| - 1]) && Next(s, a) == Next(s, more[|more| - 1]);
  }
}
