/** The reservation part of `QueueService.enqueue`, over a backend that is updated in place. */
module IdentityService {
  import opened Wrappers
  import opened Identity

  datatype Failure = EnqueueFailed | IdentityCollision

  class Backend {
    var records: map<nat, Stored>
    var keys: map<int, nat>
    var reservations: map<int, nat>

    ghost function View(): Store
      reads this
    {
      Store(records, keys, reservations)
    }

    constructor ()
      ensures View() == Store(map[], map[], map[])
    {
      records, keys, reservations := map[], map[], map[];
    }

    method ReserveIdentity(key: int, id: nat) returns (owner: Option<nat>)
      modifies this
      ensures (View(), owner) == Reserve(old(View()), key, id)
    {
      if key in reservations {
        return Some(reservations[key]);
      }
      reservations := reservations[key := id];
      owner := None;
    }

    method ResetIdentity(key: int, expected: Option<nat>) returns (removed: bool)
      modifies this
      ensures View() == Reset(old(View()), key, expected)
      ensures removed <==> View() != old(View())
    {
      if key !in reservations || (expected.Some? && reservations[key] != expected.value) {
        return false;
      }
      assert key in old(View()).reservations;
      reservations := reservations - {key};
      removed := true;
    }

    method EnqueueTask(key: int, id: nat) returns (stored: nat)
      modifies this
      ensures (View(), stored) == Enqueue(old(View()), key, id)
    {
      if key in keys && keys[key] in records && !records[keys[key]].terminal {
        return keys[key];
      }
      records := records[id := Stored(key, false)];
      keys := keys[key := id];
      stored := id;
    }
  }

  // What the environment does to the awaited calls of one enqueue.
  datatype Faults = Faults(end: EnqueueEnd, resetReached: bool, checkReadable: bool, releaseReached: bool)

  // `_release_failed_forever_reservation`
  method ReleaseFailedReservation(backend: Backend, key: int, id: nat, faults: Faults)
    modifies backend
    ensures backend.View() ==
              if faults.checkReadable && id !in old(backend.records) && faults.releaseReached
              then Reset(old(backend.View()), key, Some(id)) else old(backend.View())
  {
    if faults.checkReadable && id !in backend.records {
      if faults.releaseReached {
        var _ := backend.ResetIdentity(key, Some(id));
      }
    }
  }

  /**
   One forever enqueue with nothing interleaved. A reserved key answers with its owner and changes
   nothing. Otherwise the new record and its reservation appear together or not at all, unless a
   lost reset or an unreadable lookup leaves the reservation behind; a record never lacks its own.
   */
  method EnqueueForever(backend: Backend, key: int, id: nat, faults: Faults) returns (r: Result<nat, Failure>)
    requires id !in backend.records
    modifies backend
    ensures key in old(backend.reservations) ==>
              r == Success(old(backend.reservations)[key]) && backend.View() == old(backend.View())
    ensures key !in old(backend.reservations) ==>
              var existing := ActiveUnder(old(backend.View()), key);
              var collides := existing.Some? && faults.end.Answers?;
              var persists := existing.None? && !faults.end.RaisesBefore?;
              var released := (collides && faults.resetReached) || (faults.checkReadable && faults.releaseReached);
              && r == (if !faults.end.Answers? then Failure(EnqueueFailed)
                       else if collides then Failure(IdentityCollision) else Success(id))
              && backend.records == (if persists then old(backend.records)[id := Stored(key, false)]
                                     else old(backend.records))
              && backend.reservations == (if persists || !released then old(backend.reservations)[key := id]
                                          else old(backend.reservations))
  {
    var owner := backend.ReserveIdentity(key, id);
    if owner.Some? {
      return Success(owner.value);
    }
    if faults.end.RaisesBefore? {
      ReleaseFailedReservation(backend, key, id, faults);
      return Failure(EnqueueFailed);
    }
    var stored := backend.EnqueueTask(key, id);
    if faults.end.RaisesAfter? {
      ReleaseFailedReservation(backend, key, id, faults);
      return Failure(EnqueueFailed);
    }
    if stored != id {
      if faults.resetReached {
        var _ := backend.ResetIdentity(key, Some(id));
      }
      ReleaseFailedReservation(backend, key, id, faults);
      return Failure(IdentityCollision);
    }
    r := Success(stored);
  }
}
