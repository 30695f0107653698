/**
 * DeviceCommunicationControl (Clause 16.1): a state with one re-enable timer, and the gates
 * that read it.  Timers live in the event loop, which runs them when it gets to it, at or
 * after their deadline; a cancelled timer is no longer there to be run.
 */
module CommunicationControl {
  import opened Prelude

  datatype EnableDisable = Enable | Disable | DisableInitiation

  const DEVICE_COMMUNICATION_CONTROL := 17
  const REINITIALIZE_DEVICE := 20
  const WHO_HAS := 7
  const WHO_IS := 8

  /** Outbound unconfirmed requests. */
  predicate SendsUnconfirmed(s: EnableDisable) {
    s == Enable
  }

  /** Inbound confirmed requests. */
  predicate DispatchesConfirmed(s: EnableDisable, service: nat) {
    s != Disable || service == DEVICE_COMMUNICATION_CONTROL || service == REINITIALIZE_DEVICE
  }

  /** Inbound unconfirmed requests. */
  predicate DispatchesUnconfirmed(s: EnableDisable, service: nat) {
    match s
    case Enable => true
    case Disable => false
    case DisableInitiation => service == WHO_IS || service == WHO_HAS
  }

  /** The control state, the handle it keeps, and the timers armed in the loop with their deadlines. */
  datatype Control = Control(state: EnableDisable, timer: Option<nat>, armed: map<nat, real>, nextHandle: nat) {
    predicate Valid() {
      && (forall h :: h in armed ==> h < nextHandle)
      && (if timer.Some? then armed.Keys == {timer.value} && state != Enable else armed.Keys == {})
    }
  }

  const INITIAL := Control(Enable, None, map[], 0)

  function Deadline(at: real, minutes: nat): real {
    at + (minutes * 60) as real
  }

  function Set(c: Control, at: real, state: EnableDisable, duration: Option<nat>): Control {
    var left := if c.timer.Some? then c.armed - {c.timer.value} else c.armed;
    if duration.Some? && state != Enable then
      Control(state, Some(c.nextHandle), left[c.nextHandle := Deadline(at, duration.value)], c.nextHandle + 1)
    else
      Control(state, None, left, c.nextHandle)
  }

  function Due(c: Control, now: real): set<nat> {
    set h | h in c.armed && c.armed[h] <= now
  }

  /** The loop runs every timer that is due. */
  function Poll(c: Control, now: real): Control {
    if Due(c, now) == {} then c else Control(Enable, None, c.armed - Due(c, now), c.nextHandle)
  }

  class Application {
    var dccState: EnableDisable
    var dccTimer: Option<nat>
    var armed: map<nat, real>
    var nextHandle: nat
    var sent: seq<nat>
    var dispatched: seq<nat>

    ghost function Value(): Control
      reads this
    {
      Control(dccState, dccTimer, armed, nextHandle)
    }

    constructor ()
      ensures Value() == INITIAL && sent == [] && dispatched == []
    {
      dccState, dccTimer, armed, nextHandle := Enable, None, map[], 0;
      sent, dispatched := [], [];
    }

    method SetDccState(now: real, state: EnableDisable, duration: Option<nat>)
      requires Value().Valid()
      modifies this
      ensures Value() == Set(old(Value()), now, state, duration) && Value().Valid()
      ensures dccState == state
      ensures dccTimer.Some? <==> duration.Some? && state != Enable
      ensures dccTimer.Some? ==>
                armed == map[dccTimer.value := now + 60.0 * duration.value as real] && dccTimer.value !in old(armed)
      ensures dccTimer.None? ==> armed == map[]
      ensures sent == old(sent) && dispatched == old(dispatched)
    {
      if dccTimer.Some? {
        armed := armed - {dccTimer.value};
        dccTimer := None;
      }
      dccState := state;
      if duration.Some? && state != Enable {
        armed := armed[nextHandle := now + (duration.value * 60) as real];
        dccTimer := Some(nextHandle);
        nextHandle := nextHandle + 1;
      }
    }

    method DccTimerExpired()
      modifies this
      ensures Value() == old(Value()).(state := Enable, timer := None)
      ensures sent == old(sent) && dispatched == old(dispatched)
    {
      dccState := Enable;
      dccTimer := None;
    }

    /** The event loop takes the due timers off its list and calls them back, in any order. */
    method RunDueTimers(now: real)
      requires Value().Valid()
      modifies this
      ensures Value() == Poll(old(Value()), now) && Value().Valid()
      ensures sent == old(sent) && dispatched == old(dispatched)
    {
      var due := Due(Control(dccState, dccTimer, armed, nextHandle), now);
      ghost var all := due;
      while due != {}
        invariant due <= all <= old(armed).Keys
        invariant armed == old(armed) - (all - due) && nextHandle == old(nextHandle)
        invariant if due == all then Value() == old(Value()) else dccState == Enable && dccTimer == None
        invariant sent == old(sent) && dispatched == old(dispatched)
        decreases due
      {
        var h :| h in due;
        due := due - {h};
        armed := armed - {h};
        DccTimerExpired();
      }
    }

    method UnconfirmedRequest(service: nat)
      modifies this
      ensures Value() == old(Value()) && dispatched == old(dispatched)
      ensures sent == old(sent) + if SendsUnconfirmed(dccState) then [service] else []
    {
      if dccState == DisableInitiation {
        return;
      }
      if dccState == Disable {
        return;
      }
      sent := sent + [service];
    }

    method DispatchRequest(service: nat)
      modifies this
      ensures Value() == old(Value()) && sent == old(sent)
      ensures dispatched == old(dispatched) + if DispatchesConfirmed(dccState, service) then [service] else []
    {
      if dccState == Disable && service != DEVICE_COMMUNICATION_CONTROL && service != REINITIALIZE_DEVICE {
        return;
      }
      dispatched := dispatched + [service];
    }

    method HandleUnconfirmedRequest(service: nat)
      modifies this
      ensures Value() == old(Value()) && sent == old(sent)
      ensures dispatched == old(dispatched) + if DispatchesUnconfirmed(dccState, service) then [service] else []
    {
      if dccState == Disable {
        return;
      }
      if dccState == DisableInitiation && service != WHO_IS && service != WHO_HAS {
        return;
      }
      dispatched := dispatched + [service];
    }
  }

  // ---------------------------------------------------------------------
  // Runs.
  // ---------------------------------------------------------------------

  datatype Event =
    | Request(at: real, state: EnableDisable, duration: Option<nat>)
    | Loop(at: real)                           // the event loop runs its due timers
    | Send(at: real, service: nat)
    | ReceiveConfirmed(at: real, service: nat)
    | ReceiveUnconfirmed(at: real, service: nat)

  function Handle(c: Control, e: Event): Control {
    match e
    case Request(at, state, duration) => Set(c, at, state, duration)
    case Loop(at) => Poll(c, at)
    case _ => c
  }

  function After(es: seq<Event>, i: nat): Control
    requires i <= |es|
  {
    if i == 0 then INITIAL else Handle(After(es, i - 1), es[i - 1])
  }

  /** Whether event i gets past its gate. */
  predicate Passes(es: seq<Event>, i: nat)
    requires i < |es|
  {
    var s := After(es, i).state;
    match es[i]
    case Send(_, _) => SendsUnconfirmed(s)
    case ReceiveConfirmed(_, service) => DispatchesConfirmed(s, service)
    case ReceiveUnconfirmed(_, service) => DispatchesUnconfirmed(s, service)
    case _ => true
  }

  /** Event r is the latest request among the first i events. */
  ghost predicate Latest(es: seq<Event>, r: nat, i: nat)
    requires i <= |es|
  {
    r < i && es[r].Request? && forall k :: r < k < i ==> !es[k].Request?
  }

  ghost predicate Limited(e: Event)
    requires e.Request?
  {
    e.duration.Some? && e.state != Enable
  }

  /** The loop ran at or after the deadline of request r, between r and event i. */
  ghost predicate RanOut(es: seq<Event>, r: nat, i: nat)
    requires r < i <= |es| && es[r].Request?
  {
    && Limited(es[r])
    && exists p :: r < p < i && es[p].Loop? && es[p].at >= es[r].at + 60.0 * es[r].duration.value as real
  }

  /** The specification, with no timers in it: the latest request until its own time ran out. */
  ghost predicate InForce(es: seq<Event>, i: nat, s: EnableDisable)
    requires i <= |es|
  {
    && ((forall k :: 0 <= k < i ==> !es[k].Request?) ==> s == Enable)
    && (forall r :: 0 <= r < i && Latest(es, r, i) ==>
          s == if RanOut(es, r, i) then Enable else es[r].state)
  }

  /** What the armed timer means: the latest request is limited, and this is its own deadline. */
  ghost predicate TimerBelongsToLatest(es: seq<Event>, i: nat)
    requires i <= |es|
  {
    var c := After(es, i);
    && (forall r :: 0 <= r < i && Latest(es, r, i) ==>
          (c.timer.Some? <==> Limited(es[r]) && !RanOut(es, r, i)))
    && ((forall k :: 0 <= k < i ==> !es[k].Request?) ==> c.timer.None?)
    && (forall r :: 0 <= r < i && Latest(es, r, i) && c.timer.Some? && c.timer.value in c.armed ==>
          c.armed[c.timer.value] == es[r].at + 60.0 * es[r].duration.value as real)
  }

  lemma NewRequest(es: seq<Event>, n: nat, i: nat)
    requires i == n + 1 <= |es| && es[n].Request?
    ensures forall r :: 0 <= r < i ==> (Latest(es, r, i) <==> r == n)
    ensures !RanOut(es, n, i)
  {
  }

  lemma SameLatest(es: seq<Event>, n: nat, i: nat)
    requires i == n + 1 <= |es| && !es[n].Request?
    ensures forall r :: 0 <= r < i ==> (Latest(es, r, i) <==> r < n && Latest(es, r, n))
    ensures forall r :: 0 <= r < n && Latest(es, r, n) ==>
              (RanOut(es, r, i) <==>
                 RanOut(es, r, n) ||
                 (Limited(es[r]) && es[n].Loop? && es[n].at >= es[r].at + 60.0 * es[r].duration.value as real))
  {
  }

  lemma {:induction false} HasLatest(es: seq<Event>, i: nat)
    requires i <= |es|
    ensures (forall k :: 0 <= k < i ==> !es[k].Request?) || exists r :: 0 <= r < i && Latest(es, r, i)
  {
    if i == 0 {
    } else {
      if es[i - 1].Request? {
        assert Latest(es, i - 1, i);
      } else {
        var n := i - 1;
        HasLatest(es, n);
        SameLatest(es, n, i);
        if r :| 0 <= r < n && Latest(es, r, n) {
          assert Latest(es, r, i);
        }
      }
    }
  }

  /** After a request no timer but its own is armed. */
  lemma SetOne(c: Control, at: real, state: EnableDisable, duration: Option<nat>)
    requires c.Valid()
    ensures Set(c, at, state, duration).Valid()
    ensures Set(c, at, state, duration) ==
            if duration.Some? && state != Enable then
              Control(state, Some(c.nextHandle), map[c.nextHandle := Deadline(at, duration.value)], c.nextHandle + 1)
            else Control(state, None, map[], c.nextHandle)
  {
  }

  lemma PollOne(c: Control, now: real)
    requires c.Valid()
    ensures Poll(c, now).Valid()
    ensures Poll(c, now) ==
            if c.timer.Some? && c.armed[c.timer.value] <= now then Control(Enable, None, map[], c.nextHandle) else c
  {
    if c.timer.Some? {
      assert Due(c, now) == if c.armed[c.timer.value] <= now then {c.timer.value} else {};
    }
  }

  /**
   * Over every run, however late the loop runs its timers: at most one timer is armed, it is
   * the latest request's own, and the state is the one in force.  So an older timer never
   * re-enables, and communication is never re-enabled before the duration is over.
   */
  lemma {:induction false} StateIsInForce(es: seq<Event>, i: nat)
    requires i <= |es|
    ensures After(es, i).Valid() && |After(es, i).armed| <= 1
    ensures InForce(es, i, After(es, i).state)
    ensures TimerBelongsToLatest(es, i)
  {
    if i == 0 {
    } else {
      var n := i - 1;
      StateIsInForce(es, n);
      var before, after := After(es, n), After(es, i);
      if es[n].Request? {
        NewRequest(es, n, i);
        SetOne(before, es[n].at, es[n].state, es[n].duration);
      } else {
        SameLatest(es, n, i);
        HasLatest(es, n);
        if es[n].Loop? {
          PollOne(before, es[n].at);
        }
      }
    }
  }

  /**
   * While a DISABLE is in force no unconfirmed request is sent or dispatched, and of the
   * confirmed ones exactly DeviceCommunicationControl (17) and ReinitializeDevice (20) are;
   * under DISABLE_INITIATION nothing is sent unconfirmed, every confirmed request is dispatched
   * and of the unconfirmed ones exactly Who-Is (8) and Who-Has (7); under ENABLE everything passes.
   */
  lemma {:induction false} GatesFollowRequests(es: seq<Event>, r: nat, i: nat)
    requires i < |es| && Latest(es, r, i) && !RanOut(es, r, i)
    ensures es[r].state == Disable && es[i].Send? ==> !Passes(es, i)
    ensures es[r].state == Disable && es[i].ReceiveUnconfirmed? ==> !Passes(es, i)
    ensures es[r].state == Disable && es[i].ReceiveConfirmed? ==>
              (Passes(es, i) <==> es[i].service == 17 || es[i].service == 20)
    ensures es[r].state == DisableInitiation && es[i].Send? ==> !Passes(es, i)
    ensures es[r].state == DisableInitiation && es[i].ReceiveConfirmed? ==> Passes(es, i)
    ensures es[r].state == DisableInitiation && es[i].ReceiveUnconfirmed? ==>
              (Passes(es, i) <==> es[i].service == 8 || es[i].service == 7)
    ensures es[r].state == Enable ==> Passes(es, i)
  {
    StateIsInForce(es, i);
  }

  /** Before any request, and once the latest one has run out, everything passes. */
  lemma {:induction false} GatesOpenOtherwise(es: seq<Event>, i: nat)
    requires i < |es|
    requires forall r :: 0 <= r < i && Latest(es, r, i) ==> RanOut(es, r, i)
    ensures Passes(es, i)
  {
    StateIsInForce(es, i);
    HasLatest(es, i);
  }

  /** With a clock that never steps back, a disable holds for all of its duration. */
  lemma {:induction false} DisableHoldsForItsDuration(es: seq<Event>, r: nat, i: nat)
    requires i < |es| && Latest(es, r, i) && Limited(es[r])
    requires forall a, b :: 0 <= a <= b < |es| ==> es[a].at <= es[b].at
    requires es[i].at < es[r].at + 60.0 * es[r].duration.value as real
    ensures After(es, i).state == es[r].state
  {
    StateIsInForce(es, i);
    assert !RanOut(es, r, i);
  }
}
