/**
  The alarm debounce state machine of the alarm server adapter, as values.

  A `State` holds the adapter's timer table (state id to pending clear-timer
  handle, or null), the host's queue of scheduled timeouts, the external state
  store (object set and boolean values) and a logical clock. `LogEvent`,
  `TimerFired`, `Unload` and `Advance` are the atomic steps; `Run` applies a
  trace of them. The lemmas prove the invariant `Valid` (at most one pending
  timer per id, and for every id in the timer table, indicator true exactly
  while its timer is pending) for every trace, and the debounce and ordering
  guarantees built on it.
*/
module Debounce {
  import opened Wrappers

  /** Milliseconds after the latest event before an indicator is cleared. */
  const ClearDelay: int := 5000

  /** A handle returned by the host's setTimeout; handles are never reused. */
  type Handle = nat

  /** A scheduled clear callback: the state id it writes false to, and when it is due. */
  datatype Timer = Timer(id: string, due: int)

  datatype State = State(
    timers: map<string, Option<Handle>>,  // the adapter's table: id -> pending handle or null
    queue: map<Handle, Timer>,            // timeouts the host has scheduled and not yet run or cleared
    nextHandle: Handle,                   // the handle the next setTimeout returns
    objects: set<string>,                 // state objects that exist in the store
    store: map<string, bool>,             // current value of each state
    now: int)                             // logical clock, in milliseconds

  // ---------------------------------------------------------------------------
  // State ids

  /** The state id of an event: device id, a dot, event type, verbatim. */
  function StateId(macAddress: string, eventType: string): string
  {
    macAddress + "." + eventType
  }

  /** Index of the first '.' in `s`, or |s| when there is none. */
  function FirstDot(s: string): (k: nat)
    ensures k <= |s|
    ensures forall j :: 0 <= j < k ==> s[j] != '.'
    ensures k < |s| ==> s[k] == '.'
  {
    if s == [] then 0
    else if s[0] == '.' then 0
    else 1 + FirstDot(s[1..])
  }

  /** Splits an id at its first dot back into device id and event type. */
  function SplitStateId(id: string): (parts: (string, string))
  {
    var k := FirstDot(id);
    if k < |id| then (id[..k], id[k + 1..]) else (id, "")
  }

  lemma {:induction false} FirstDotOfStateId(macAddress: string, eventType: string)
    requires '.' !in macAddress
    ensures FirstDot(StateId(macAddress, eventType)) == |macAddress|
  {
    var id := StateId(macAddress, eventType);
    if macAddress == [] {
      assert id[0] == '.';
    } else {
      assert id[0] == macAddress[0];
      assert id[1..] == StateId(macAddress[1..], eventType);
      FirstDotOfStateId(macAddress[1..], eventType);
    }
  }

  /** For a device id without dots, the state id determines device id and event type. */
  lemma StateIdRoundTrip(macAddress: string, eventType: string)
    requires '.' !in macAddress
    ensures SplitStateId(StateId(macAddress, eventType)) == (macAddress, eventType)
  {
    var id := StateId(macAddress, eventType);
    FirstDotOfStateId(macAddress, eventType);
    assert id[..|macAddress|] == macAddress;
    assert id[|macAddress| + 1..] == eventType;
  }

  lemma StateIdInjective(mac1: string, type1: string, mac2: string, type2: string)
    requires '.' !in mac1 && '.' !in mac2
    requires StateId(mac1, type1) == StateId(mac2, type2)
    ensures mac1 == mac2 && type1 == type2
  {
    StateIdRoundTrip(mac1, type1);
    StateIdRoundTrip(mac2, type2);
  }

  /** The device id is not normalised: a dotted device id can share a state id with another pair. */
  lemma StateIdCollision()
    ensures StateId("a.b", "VMD") == StateId("a", "b.VMD")
  {
  }

  // ---------------------------------------------------------------------------
  // The invariant

  predicate Pending(s: State, id: string)
  {
    id in s.timers && s.timers[id].Some?
  }

  /** All scheduled timeouts that would clear `id`. */
  function PendingFor(s: State, id: string): set<Handle>
  {
    set h | h in s.queue && s.queue[h].id == id
  }

  /**
    Every scheduled timeout is the one the table records for its id, and every
    recorded handle is scheduled for that id; handles are fresh; no deadline is
    more than ClearDelay ahead; every tracked id has its object and its value is
    true exactly while a clear timer is pending.
  */
  ghost predicate Valid(s: State)
  {
    && (forall h :: h in s.queue ==> h < s.nextHandle && s.queue[h].due <= s.now + ClearDelay)
    && (forall h :: h in s.queue ==> Pending(s, s.queue[h].id) && s.timers[s.queue[h].id].value == h)
    && (forall id :: id in s.timers && s.timers[id].Some? ==>
          s.timers[id].value in s.queue && s.queue[s.timers[id].value].id == id)
    && (forall id :: id in s.timers ==> id in s.objects && id in s.store && s.store[id] == s.timers[id].Some?)
  }

  /** The indicator `id` holds true in the store. */
  predicate Raised(s: State, id: string)
  {
    id in s.store && s.store[id]
  }

  ghost function Deadline(s: State, id: string): int
    requires Valid(s) && Pending(s, id)
  {
    s.queue[s.timers[id].value].due
  }

  /** No id ever has two pending clear timers; it has one exactly when the table holds a handle. */
  lemma AtMostOnePending(s: State, id: string)
    requires Valid(s)
    ensures PendingFor(s, id) == if Pending(s, id) then {s.timers[id].value} else {}
  {
    forall h | h in PendingFor(s, id)
      ensures Pending(s, id) && h == s.timers[id].value
    {
      assert s.queue[h].id == id;
    }
    if Pending(s, id) {
      assert s.timers[id].value in PendingFor(s, id);
    }
  }

  // ---------------------------------------------------------------------------
  // Steps

  /** clearTimeout on the id's pending handle, then null its entry. */
  function Cancel(s: State, id: string): (r: State)
    ensures r.objects == s.objects && r.store == s.store && r.now == s.now && r.nextHandle == s.nextHandle
    ensures r.timers == if Pending(s, id) then s.timers[id := None] else s.timers
    ensures forall h :: h in r.queue <==> h in s.queue && !(Pending(s, id) && h == s.timers[id].value)
    ensures forall h :: h in r.queue ==> r.queue[h] == s.queue[h]
  {
    if Pending(s, id) then s.(queue := s.queue - {s.timers[id].value}, timers := s.timers[id := None])
    else s
  }

  /**
    The body of logEvent for a state id: cancel any pending timer for the id,
    create the state object if missing, write true, and record a fresh timeout
    due ClearDelay from now under the id.
  */
  function Raise(s: State, id: string): (r: State)
    ensures r.objects == s.objects + {id}
    ensures r.store == s.store[id := true]
    ensures r.timers == s.timers[id := Some(s.nextHandle)]
    ensures r.now == s.now && r.nextHandle == s.nextHandle + 1
    ensures s.nextHandle in r.queue && r.queue[s.nextHandle] == Timer(id, s.now + ClearDelay)
    ensures forall h :: h in r.queue && h != s.nextHandle ==>
      h in s.queue && r.queue[h] == s.queue[h] && !(Pending(s, id) && h == s.timers[id].value)
    ensures forall h :: h in s.queue && h != s.nextHandle && !(Pending(s, id) && h == s.timers[id].value) ==>
      h in r.queue
  {
    var t := Cancel(s, id);
    var u := t.(objects := t.objects + {id}, store := t.store[id := true]);
    u.(queue := u.queue[u.nextHandle := Timer(id, u.now + ClearDelay)],
       timers := u.timers[id := Some(u.nextHandle)],
       nextHandle := u.nextHandle + 1)
  }

  /** One event: the state id is built from the event's fields and raised. */
  function LogEvent(s: State, macAddress: string, eventType: string): State
  {
    Raise(s, StateId(macAddress, eventType))
  }

  /** Creating the state object is idempotent: a repeated event leaves the object set as it was. */
  lemma RepeatedEventKeepsObjects(s: State, macAddress: string, eventType: string)
    requires StateId(macAddress, eventType) in s.objects
    ensures LogEvent(s, macAddress, eventType).objects == s.objects
    ensures Raised(LogEvent(s, macAddress, eventType), StateId(macAddress, eventType))
  {
  }

  /** A timeout is due when it is still scheduled and its time has come. */
  predicate Due(s: State, h: Handle)
  {
    h in s.queue && s.queue[h].due <= s.now
  }

  /** The clear callback of timeout `h` runs: its id is written false and its entry nulled. */
  function TimerFired(s: State, h: Handle): (r: State)
    requires h in s.queue
    ensures var id := s.queue[h].id;
      && r.store == s.store[id := false]
      && r.timers == s.timers[id := None]
      && r.queue == s.queue - {h}
      && r.objects == s.objects && r.now == s.now && r.nextHandle == s.nextHandle
  {
    var id := s.queue[h].id;
    s.(queue := s.queue - {h}, store := s.store[id := false], timers := s.timers[id := None])
  }

  /** Logical time passes. */
  function Advance(s: State, dt: nat): (r: State)
    ensures r.now == s.now + dt && r.(now := s.now) == s
  {
    s.(now := s.now + dt)
  }

  /** The handles the table holds for the ids in `ids`. */
  function HandlesOf(s: State, ids: set<string>): set<Handle>
  {
    set id | id in ids && Pending(s, id) :: s.timers[id].value
  }

  /** The state after the shutdown loop has handled the ids in `done`. */
  function Drain(s: State, done: set<string>): (r: State)
    ensures r.timers.Keys == s.timers.Keys
    ensures r.objects == s.objects && r.now == s.now && r.nextHandle == s.nextHandle
  {
    s.(timers := map id | id in s.timers :: if id in done then None else s.timers[id],
       queue := s.queue - HandlesOf(s, done),
       store := s.store + map id | id in done :: false)
  }

  /** One iteration of the shutdown loop: cancel and null a pending entry, then write false. */
  function DrainOne(s: State, id: string): (r: State)
  {
    var t := Cancel(s, id);
    t.(store := t.store[id := false])
  }

  /** Shutdown: every id in the table is drained. */
  function Unload(s: State): State
  {
    Drain(s, s.timers.Keys)
  }

  lemma DrainNothing(s: State)
    ensures Drain(s, {}) == s
  {
    var r := Drain(s, {});
    assert HandlesOf(s, {}) == {};
    assert r.queue == s.queue;
    assert r.timers == s.timers;
    assert r.store == s.store;
  }

  lemma HandlesOfInsert(s: State, done: set<string>, id: string)
    ensures HandlesOf(s, done + {id}) ==
      if Pending(s, id) then HandlesOf(s, done) + {s.timers[id].value} else HandlesOf(s, done)
  {
  }

  lemma DrainStepTimers(s: State, done: set<string>, id: string)
    requires id in s.timers && id !in done
    ensures Drain(s, done + {id}).timers == Cancel(Drain(s, done), id).timers
  {
    assert Drain(s, done).timers[id] == s.timers[id];
  }

  lemma DrainStepStore(s: State, done: set<string>, id: string)
    requires id in s.timers && id !in done
    ensures Drain(s, done + {id}).store == Cancel(Drain(s, done), id).store[id := false]
  {
  }

  lemma DrainStepQueue(s: State, done: set<string>, id: string)
    requires id in s.timers && id !in done
    ensures Drain(s, done + {id}).queue == Cancel(Drain(s, done), id).queue
  {
    assert Drain(s, done).timers[id] == s.timers[id];
    HandlesOfInsert(s, done, id);
  }

  /** Handling one more id extends a partial drain by one loop iteration. */
  lemma DrainStep(s: State, done: set<string>, id: string)
    requires id in s.timers && id !in done
    ensures Drain(s, done + {id}) == DrainOne(Drain(s, done), id)
  {
    DrainStepTimers(s, done, id);
    DrainStepStore(s, done, id);
    DrainStepQueue(s, done, id);
  }

  // ---------------------------------------------------------------------------
  // What each step guarantees

  /**
    After an event: the indicator is true, the id has exactly one pending timer,
    due ClearDelay after this event, and the previous one is gone.
  */
  lemma LogEventSpec(s: State, macAddress: string, eventType: string)
    requires Valid(s)
    ensures var r := LogEvent(s, macAddress, eventType); var id := StateId(macAddress, eventType);
      && Valid(r)
      && PendingFor(r, id) == {s.nextHandle}
      && Deadline(r, id) == r.now + ClearDelay
      && (Pending(s, id) ==> s.timers[id].value !in r.queue)
  {
    var r := LogEvent(s, macAddress, eventType);
    var id := StateId(macAddress, eventType);
    forall h | h in r.queue
      ensures h < r.nextHandle && r.queue[h].due <= r.now + ClearDelay
      ensures Pending(r, r.queue[h].id) && r.timers[r.queue[h].id].value == h
    {
      if h != s.nextHandle {
        assert s.queue[h].id != id;
      }
    }
    forall other | other in r.timers && r.timers[other].Some?
      ensures r.timers[other].value in r.queue && r.queue[r.timers[other].value].id == other
    {
      if other != id {
        var h := s.timers[other].value;
        assert s.queue[h].id == other;
      }
    }
    assert Valid(r);
    AtMostOnePending(r, id);
  }

  /** A firing timer clears its own id and touches no other id's value or entry. */
  lemma TimerFiredSpec(s: State, h: Handle)
    requires Valid(s) && h in s.queue
    ensures var r := TimerFired(s, h); var id := s.queue[h].id;
      && Valid(r)
      && r.store[id] == false && r.timers[id] == None && PendingFor(r, id) == {}
      && (forall other :: other != id ==> Pending(r, other) == Pending(s, other))
  {
    var r := TimerFired(s, h);
    var id := s.queue[h].id;
    forall other | other in r.timers && r.timers[other].Some?
      ensures r.timers[other].value in r.queue && r.queue[r.timers[other].value].id == other
    {
      assert s.queue[s.timers[other].value].id == other;
    }
    assert Valid(r);
    AtMostOnePending(r, id);
  }

  lemma AdvanceValid(s: State, dt: nat)
    requires Valid(s)
    ensures Valid(Advance(s, dt))
  {
  }

  /**
    Shutdown leaves no pending timer, nulls every entry and writes false to every
    id ever recorded in the table, whether or not its timer had already fired.
  */
  lemma UnloadSpec(s: State)
    requires Valid(s)
    ensures var r := Unload(s);
      && Valid(r)
      && r.queue == map[]
      && r.timers.Keys == s.timers.Keys
      && (forall id :: id in s.timers ==> r.timers[id] == None && r.store[id] == false)
      && (forall id :: id in s.store && id !in s.timers ==> id in r.store && r.store[id] == s.store[id])
      && r.objects == s.objects
  {
    var r := Unload(s);
    forall h | h in s.queue
      ensures h in HandlesOf(s, s.timers.Keys)
    {
      var id := s.queue[h].id;
      assert Pending(s, id) && s.timers[id].value == h;
    }
    assert r.queue == map[];
  }

  // ---------------------------------------------------------------------------
  // Traces

  datatype Step =
    | Event(macAddress: string, eventType: string)  // a valid notification reached logEvent
    | Tick(dt: nat)                                 // the clock advances
    | Timeout(handle: Handle)                       // the host tries to run timeout `handle`
    | Shutdown                                      // the adapter unloads

  /** One step; the host runs only timeouts that are scheduled and due. */
  function Apply(s: State, step: Step): State
  {
    match step
    case Event(m, t) => LogEvent(s, m, t)
    case Tick(dt) => Advance(s, dt)
    case Timeout(h) => if Due(s, h) then TimerFired(s, h) else s
    case Shutdown => Unload(s)
  }

  function Run(s: State, steps: seq<Step>): State
    decreases |steps|
  {
    if steps == [] then s else Run(Apply(s, steps[0]), steps[1..])
  }

  lemma StepValid(s: State, step: Step)
    requires Valid(s)
    ensures Valid(Apply(s, step))
  {
    match step
    case Event(m, t) => LogEventSpec(s, m, t);
    case Tick(dt) => AdvanceValid(s, dt);
    case Timeout(h) => if Due(s, h) { TimerFiredSpec(s, h); }
    case Shutdown => UnloadSpec(s);
  }

  /** The invariant holds after every trace of events, ticks, timeouts and shutdowns. */
  lemma {:induction false} RunValid(s: State, steps: seq<Step>)
    requires Valid(s)
    ensures Valid(Run(s, steps))
    decreases |steps|
  {
    if steps != [] {
      StepValid(s, steps[0]);
      RunValid(Apply(s, steps[0]), steps[1..]);
    }
  }

  /** No step removes an id from the table: the callback and shutdown only null entries. */
  lemma StepKeepsTableKeys(s: State, step: Step)
    ensures s.timers.Keys <= Apply(s, step).timers.Keys
  {
  }

  /** Once an id is in the table it stays there, so a later shutdown writes false to it. */
  lemma {:induction false} RunKeepsTableKeys(s: State, steps: seq<Step>)
    ensures s.timers.Keys <= Run(s, steps).timers.Keys
    decreases |steps|
  {
    if steps != [] {
      StepKeepsTableKeys(s, steps[0]);
      RunKeepsTableKeys(Apply(s, steps[0]), steps[1..]);
    }
  }

  /** A timeout that was cleared or has run is never scheduled again. */
  lemma {:induction false} GoneStaysGone(s: State, steps: seq<Step>, h: Handle)
    requires h < s.nextHandle && h !in s.queue
    ensures h !in Run(s, steps).queue
    decreases |steps|
  {
    if steps != [] {
      var t := Apply(s, steps[0]);
      assert h < t.nextHandle && h !in t.queue;
      GoneStaysGone(t, steps[1..], h);
    }
  }

  /**
    A newer event for an id cancels the older timer for good: whatever happens
    next, that older timer can never run and overwrite the new true with false.
  */
  lemma StaleTimerNeverFires(s: State, macAddress: string, eventType: string, steps: seq<Step>)
    requires Valid(s) && Pending(s, StateId(macAddress, eventType))
    ensures var stale := s.timers[StateId(macAddress, eventType)].value;
      stale !in Run(LogEvent(s, macAddress, eventType), steps).queue
  {
    var id := StateId(macAddress, eventType);
    var stale := s.timers[id].value;
    LogEventSpec(s, macAddress, eventType);
    GoneStaysGone(LogEvent(s, macAddress, eventType), steps, stale);
  }

  /** With no further events, the clear timer becomes due exactly ClearDelay after the event. */
  lemma ClearedExactlyAtDeadline(s: State, macAddress: string, eventType: string, dt: nat)
    requires Valid(s)
    ensures Due(Advance(LogEvent(s, macAddress, eventType), dt), s.nextHandle) <==> dt >= ClearDelay
  {
  }

  /** Time left before an indicator's deadline after `step`, when it was `slack` before. */
  function NextSlack(id: string, slack: int, step: Step): int
  {
    match step
    case Event(m, t) => if StateId(m, t) == id then ClearDelay else slack
    case Tick(dt) => slack - dt
    case Timeout(_) => slack
    case Shutdown => slack
  }

  /** A step that cannot end an indicator with `slack` left: no shutdown, and no tick reaching the deadline. */
  predicate StepKeepsAlive(slack: int, step: Step)
  {
    match step
    case Tick(dt) => dt < slack
    case Shutdown => false
    case _ => true
  }

  /**
    Holds when `steps` keep an indicator alive: no shutdown, and the clock never
    reaches the deadline, which is `slack` ahead now and moves to ClearDelay ahead
    on every event for `id`.
  */
  predicate KeepsAlive(id: string, slack: int, steps: seq<Step>)
    decreases |steps|
  {
    steps == [] ||
    (StepKeepsAlive(slack, steps[0]) && KeepsAlive(id, NextSlack(id, slack, steps[0]), steps[1..]))
  }

  /** One step that keeps an indicator alive leaves it raised, with the time left updated. */
  lemma StepStaysRaised(s: State, id: string, step: Step)
    requires Valid(s) && Pending(s, id) && s.now < Deadline(s, id)
    requires StepKeepsAlive(Deadline(s, id) - s.now, step)
    ensures var t := Apply(s, step);
      && Valid(t) && Pending(t, id) && Raised(t, id)
      && Deadline(t, id) - t.now == NextSlack(id, Deadline(s, id) - s.now, step)
  {
    StepValid(s, step);
    var h := s.timers[id].value;
    match step
    case Event(m, e) =>
      LogEventSpec(s, m, e);
      if StateId(m, e) != id {
        assert s.queue[h].id == id;
      }
    case Tick(dt) =>
    case Timeout(g) =>
      if Due(s, g) {
        assert g != h;
        assert s.queue[g].id != id;
      }
  }

  /**
    Debounce: while events for an id keep arriving less than ClearDelay apart,
    its indicator stays true and its one clear timer stays ahead of the clock,
    whatever other ids and timeouts do meanwhile.
  */
  lemma {:induction false} StaysRaised(s: State, id: string, steps: seq<Step>)
    requires Valid(s) && Pending(s, id) && s.now < Deadline(s, id)
    requires KeepsAlive(id, Deadline(s, id) - s.now, steps)
    ensures var r := Run(s, steps);
      Valid(r) && Pending(r, id) && Raised(r, id) && r.now < Deadline(r, id)
    decreases |steps|
  {
    if steps != [] {
      StepStaysRaised(s, id, steps[0]);
      StaysRaised(Apply(s, steps[0]), id, steps[1..]);
    }
  }

  lemma {:induction false} KeepsAlivePrefix(id: string, slack: int, steps: seq<Step>, k: nat)
    requires k <= |steps| && KeepsAlive(id, slack, steps)
    ensures KeepsAlive(id, slack, steps[..k])
    decreases |steps|
  {
    if k > 0 {
      assert steps[..k][0] == steps[0];
      assert steps[..k][1..] == steps[1..][..k - 1];
      KeepsAlivePrefix(id, NextSlack(id, slack, steps[0]), steps[1..], k - 1);
    }
  }

  /** The indicator is true in every intermediate state of such a trace: no false write in between. */
  lemma StaysRaisedThroughout(s: State, id: string, steps: seq<Step>)
    requires Valid(s) && Pending(s, id) && s.now < Deadline(s, id)
    requires KeepsAlive(id, Deadline(s, id) - s.now, steps)
    ensures forall k :: 0 <= k <= |steps| ==> Raised(Run(s, steps[..k]), id)
  {
    forall k | 0 <= k <= |steps|
      ensures Raised(Run(s, steps[..k]), id)
    {
      KeepsAlivePrefix(id, Deadline(s, id) - s.now, steps, k);
      StaysRaised(s, id, steps[..k]);
    }
  }
}
