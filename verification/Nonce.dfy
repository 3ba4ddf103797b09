/** Nonce reservation: the shared counter, and its safety under every interleaving of submissions
    whose failed broadcasts release their nonce at some later time. */
module Nonce {
  import opened Common

  datatype NonceState = NonceState(next: U64, initialised: bool)

  datatype NonceError = NotInitialised | CounterOverflow

  function Reserve(state: NonceState): (NonceState, Result<U64, NonceError>) {
    if !state.initialised then (state, Err(NotInitialised))
    else if state.next == U64_MAX then (state, Err(CounterOverflow))
    else (state.(next := state.next + 1), Ok(state.next))
  }

  function Release(state: NonceState, expected: U64): NonceState {
    var following: U64 := if expected == U64_MAX then U64_MAX else expected + 1;
    if state.next == following then state.(next := expected) else state
  }

  class NonceManager {
    var next: U64
    var initialised: bool

    ghost function State(): NonceState
      reads this
    {
      NonceState(next, initialised)
    }

    constructor ()
      ensures State() == NonceState(0, false)
    {
      next, initialised := 0, false;
    }

    method SyncFromChain(pending: U64) returns (nonce: U64)
      modifies this
      ensures State() == NonceState(pending, true) && nonce == pending
    {
      next, initialised := pending, true;
      nonce := pending;
    }

    method Next() returns (r: Result<U64, NonceError>)
      modifies this
      ensures (State(), r) == Reserve(old(State()))
    {
      if !initialised {
        return Err(NotInitialised);
      }
      var nonce := next;
      if next == U64_MAX {
        return Err(CounterOverflow);
      }
      next := next + 1;
      return Ok(nonce);
    }

    method ReleaseNonce(expected: U64)
      modifies this
      ensures State() == Release(old(State()), expected)
    {
      var following: U64 := if expected == U64_MAX then U64_MAX else expected + 1;
      if next == following {
        next := expected;
      }
    }
  }

  // ----- Interleaved submissions -----

  /** Where a submission stands: holding a nonce before broadcast; given up before broadcast, which
      never releases; broadcast; broadcast failed with the spawned release still to run; released. */
  datatype Phase = Holding | GivenUp | Broadcast | ReleasePending | Released

  datatype Submission = Submission(nonce: U64, phase: Phase)

  datatype System = System(manager: NonceState, submissions: seq<Submission>)

  datatype Event = Submit | GiveUp(who: nat) | BroadcastOk(who: nat) | BroadcastFailed(who: nat) | RunRelease(who: nat)

  predicate InPhase(system: System, who: nat, phase: Phase) {
    who < |system.submissions| && system.submissions[who].phase == phase
  }

  function SetPhase(system: System, who: nat, phase: Phase): System
    requires who < |system.submissions|
  {
    system.(submissions := system.submissions[who := system.submissions[who].(phase := phase)])
  }

  /** One atomic step; an event that is not enabled does nothing. */
  function Step(system: System, event: Event): System {
    match event
    case Submit =>
      (var (manager, reserved) := Reserve(system.manager);
       match reserved
       case Ok(nonce) => System(manager, system.submissions + [Submission(nonce, Holding)])
       case Err(_) => system.(manager := manager))
    case GiveUp(who) => if InPhase(system, who, Holding) then SetPhase(system, who, GivenUp) else system
    case BroadcastOk(who) => if InPhase(system, who, Holding) then SetPhase(system, who, Broadcast) else system
    case BroadcastFailed(who) =>
      if InPhase(system, who, Holding) then SetPhase(system, who, ReleasePending) else system
    case RunRelease(who) =>
      if InPhase(system, who, ReleasePending)
      then SetPhase(system, who, Released).(manager := Release(system.manager, system.submissions[who].nonce))
      else system
  }

  /** Any interleaving of events after one initial sync. */
  function Run(first: U64, events: seq<Event>): System {
    if events == [] then System(NonceState(first, true), [])
    else Step(Run(first, events[..|events| - 1]), events[|events| - 1])
  }

  predicate Unreleased(system: System, i: int) {
    0 <= i < |system.submissions| && system.submissions[i].phase != Released
  }

  predicate Apart(system: System, i: int, j: int) {
    Unreleased(system, i) && Unreleased(system, j) && i != j ==>
      system.submissions[i].nonce != system.submissions[j].nonce
  }

  predicate InWindow(system: System, first: U64, i: int) {
    Unreleased(system, i) ==> first <= system.submissions[i].nonce < system.manager.next
  }

  /** Unreleased nonces are pairwise distinct and lie between the synced value and `next`. */
  ghost predicate Safe(system: System, first: U64) {
    && system.manager.initialised && first <= system.manager.next
    && (forall i, j :: Apart(system, i, j))
    && (forall i :: InWindow(system, first, i))
    && (forall i | 0 <= i < |system.submissions| :: first <= system.submissions[i].nonce)
  }

  lemma SubmitIsSafe(system: System, first: U64)
    requires Safe(system, first)
    ensures Safe(Step(system, Submit), first)
  {
    var after := Step(system, Submit);
    forall i ensures InWindow(after, first, i) {
      assert InWindow(system, first, i);
    }
    forall i, j ensures Apart(after, i, j) {
      assert Apart(system, i, j) && InWindow(system, first, i) && InWindow(system, first, j);
    }
  }

  lemma PhaseIsSafe(system: System, first: U64, who: nat, phase: Phase)
    requires Safe(system, first) && who < |system.submissions|
    requires system.submissions[who].phase != Released
    ensures Safe(SetPhase(system, who, phase), first)
  {
    var after := SetPhase(system, who, phase);
    forall i ensures InWindow(after, first, i) {
      assert InWindow(system, first, i);
    }
    forall i, j ensures Apart(after, i, j) {
      assert Apart(system, i, j);
    }
  }

  /** A delayed release rewinds only past its own nonce, which nobody else holds. */
  lemma ReleaseIsSafe(system: System, first: U64, who: nat)
    requires Safe(system, first) && InPhase(system, who, ReleasePending)
    ensures Safe(Step(system, RunRelease(who)), first)
  {
    var after := Step(system, RunRelease(who));
    assert InWindow(system, first, who);
    forall i ensures InWindow(after, first, i) {
      assert InWindow(system, first, i) && Apart(system, i, who);
    }
    forall i, j ensures Apart(after, i, j) {
      assert Apart(system, i, j);
    }
  }

  /** Nonce safety: over every interleaving, with releases delayed arbitrarily and run at most once
      after a failed broadcast. */
  lemma {:induction false} RunsAreSafe(first: U64, events: seq<Event>)
    ensures Safe(Run(first, events), first)
  {
    if events != [] {
      var last := |events| - 1;
      RunsAreSafe(first, events[..last]);
      var system := Run(first, events[..last]);
      match events[last]
      case Submit => SubmitIsSafe(system, first);
      case GiveUp(who) => if InPhase(system, who, Holding) { PhaseIsSafe(system, first, who, GivenUp); }
      case BroadcastOk(who) => if InPhase(system, who, Holding) { PhaseIsSafe(system, first, who, Broadcast); }
      case BroadcastFailed(who) =>
        if InPhase(system, who, Holding) { PhaseIsSafe(system, first, who, ReleasePending); }
      case RunRelease(who) => if InPhase(system, who, ReleasePending) { ReleaseIsSafe(system, first, who); }
    }
  }

  /** No two successful broadcasts share a nonce, and at every moment a nonce that was broadcast or
      given up is not the one handed out next. */
  lemma BroadcastsNeverCollide(first: U64, events: seq<Event>, i: nat, j: nat)
    requires
      var system := Run(first, events);
      && i < |system.submissions| && j < |system.submissions| && i != j
      && (InPhase(system, i, Broadcast) || InPhase(system, i, GivenUp)) && !InPhase(system, j, Released)
    ensures Run(first, events).submissions[i].nonce != Run(first, events).submissions[j].nonce
    ensures Reserve(Run(first, events).manager).1 != Ok(Run(first, events).submissions[i].nonce)
  {
    RunsAreSafe(first, events);
    var system := Run(first, events);
    assert Apart(system, i, j) && InWindow(system, first, i);
  }
}
