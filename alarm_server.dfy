/**
  The adapter object: its timer table updated in place by logEvent, by the
  clear callbacks and by the shutdown drain, together with the host's timer
  queue, the external state store and the clock it runs against. LogEvent,
  FireDue, Tick, Unload and HandleRequest keep Debounce.Valid and end in exactly
  the corresponding Debounce step. The helpers Raise, DrainAll and DrainEntry
  are proved equal to their Debounce step only.
*/
module AlarmServer {
  import opened Wrappers
  import Debounce
  import HttpGate

  class Adapter {
    var timers: map<string, Option<Debounce.Handle>>
    var queue: map<Debounce.Handle, Debounce.Timer>
    var nextHandle: Debounce.Handle
    var objects: set<string>
    var store: map<string, bool>
    var now: int

    /** The abstract state the fields stand for. */
    function Snapshot(): Debounce.State
      reads this
    {
      Debounce.State(timers, queue, nextHandle, objects, store, now)
    }

    ghost predicate Valid()
      reads this
    {
      Debounce.Valid(Snapshot())
    }

    /** A fresh adapter has an empty timer table; the store keeps what earlier runs left in it. */
    constructor (existingObjects: set<string>, existingStore: map<string, bool>, clock: int)
      ensures Valid()
      ensures Snapshot() == Debounce.State(map[], map[], 0, existingObjects, existingStore, clock)
    {
      timers := map[];
      queue := map[];
      nextHandle := 0;
      objects := existingObjects;
      store := existingStore;
      now := clock;
    }

    /** logEvent: build the state id, then raise it. */
    method LogEvent(macAddress: string, eventType: string)
      requires Valid()
      modifies this
      ensures Valid()
      ensures Snapshot() == Debounce.LogEvent(old(Snapshot()), macAddress, eventType)
      ensures Debounce.PendingFor(Snapshot(), Debounce.StateId(macAddress, eventType)) == {old(nextHandle)}
    {
      var id := macAddress + "." + eventType;
      Raise(id);
      Debounce.LogEventSpec(old(Snapshot()), macAddress, eventType);
    }

    /** Cancel the id's pending timer, create its object if missing, write true, reschedule. */
    method Raise(id: string)
      modifies this
      ensures Snapshot() == Debounce.Raise(old(Snapshot()), id)
    {
      ghost var s0 := Snapshot();
      if id in timers && timers[id].Some? {
        queue := queue - {timers[id].value};
        timers := timers[id := None];
      }
      assert Snapshot() == Debounce.Cancel(s0, id);
      objects := objects + {id};
      store := store[id := true];
      var handle := nextHandle;
      queue := queue[handle := Debounce.Timer(id, now + Debounce.ClearDelay)];
      nextHandle := nextHandle + 1;
      timers := timers[id := Some(handle)];
    }

    /** The host runs timeout `handle` if it is scheduled and due; its callback clears its id. */
    method FireDue(handle: Debounce.Handle) returns (fired: bool)
      requires Valid()
      modifies this
      ensures Valid()
      ensures fired == Debounce.Due(old(Snapshot()), handle)
      ensures Snapshot() == Debounce.Apply(old(Snapshot()), Debounce.Timeout(handle))
    {
      fired := handle in queue && queue[handle].due <= now;
      if fired {
        var id := queue[handle].id;
        queue := queue - {handle};
        store := store[id := false];
        timers := timers[id := None];
        Debounce.TimerFiredSpec(old(Snapshot()), handle);
      }
    }

    /** The clock advances by `dt` milliseconds. */
    method Tick(dt: nat)
      requires Valid()
      modifies this
      ensures Valid()
      ensures Snapshot() == Debounce.Advance(old(Snapshot()), dt)
    {
      now := now + dt;
    }

    /** Shutdown: drain every entry of the table, then no timer is left pending. */
    method Unload()
      requires Valid()
      modifies this
      ensures Valid()
      ensures Snapshot() == Debounce.Unload(old(Snapshot()))
      ensures queue == map[]
    {
      DrainAll();
      Debounce.UnloadSpec(old(Snapshot()));
    }

    /** The loop over the table's keys, in any order. */
    method DrainAll()
      modifies this
      ensures Snapshot() == Debounce.Unload(old(Snapshot()))
    {
      ghost var s0 := Snapshot();
      var rest := timers.Keys;
      Debounce.DrainNothing(s0);
      while rest != {}
        invariant rest <= s0.timers.Keys
        invariant Snapshot() == Debounce.Drain(s0, s0.timers.Keys - rest)
        decreases rest
      {
        var id :| id in rest;
        ghost var done := s0.timers.Keys - rest;
        DrainEntry(id);
        Debounce.DrainStep(s0, done, id);
        assert done + {id} == s0.timers.Keys - (rest - {id});
        rest := rest - {id};
      }
      assert s0.timers.Keys - rest == s0.timers.Keys;
    }

    /** The loop body for one id: cancel and null a pending entry, then write false. */
    method DrainEntry(id: string)
      modifies this
      ensures Snapshot() == Debounce.DrainOne(old(Snapshot()), id)
    {
      ghost var s0 := Snapshot();
      if id in timers && timers[id].Some? {
        queue := queue - {timers[id].value};
        timers := timers[id := None];
      }
      assert Snapshot() == Debounce.Cancel(s0, id);
      store := store[id := false];
    }

    /**
      One HTTP request: a POST whose body parses is logged as an event; anything
      else changes nothing. The response is ended in every case.
    */
    method HandleRequest(verb: string, body: HttpGate.Body) returns (status: int)
      requires Valid()
      modifies this
      ensures Valid()
      ensures status == HttpGate.DefaultStatus
      ensures verb != "POST" || body.Unparsable? || body.alert.None? ==> Snapshot() == old(Snapshot())
      ensures verb == "POST" && body.Parsed? && body.alert.Some? ==>
        var key := HttpGate.EventKey(HttpGate.Text(body.alert.value.macAddress), HttpGate.Text(body.alert.value.eventType));
        Snapshot() == Debounce.LogEvent(old(Snapshot()), key.macAddress, key.eventType)
    {
      var event := HttpGate.Route(verb, body);
      if event.Some? {
        LogEvent(event.value.macAddress, event.value.eventType);
      }
      status := HttpGate.DefaultStatus;
    }
  }
}
