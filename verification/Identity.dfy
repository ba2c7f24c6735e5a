/**
 `unique_until="forever"`: identity reservations under concurrent enqueues. The backend's
 operations are atomic steps; every enqueue is a client that takes them one await at a time.
 */
module Identity {
  import opened Wrappers

  datatype Stored = Stored(key: int, terminal: bool)

  // Persisted records, the id each key was last enqueued under, and the reservations.
  datatype Store = Store(
    records: map<nat, Stored>,
    keys: map<int, nat>,
    reservations: map<int, nat>)

  // ---------------------------------------------------------------- backend operations

  // `reserve_identity`: the existing owner, or none when this caller won.
  function Reserve(s: Store, key: int, id: nat): (Store, Option<nat>) {
    if key in s.reservations then (s, Some(s.reservations[key]))
    else (s.(reservations := s.reservations[key := id]), None)
  }

  // `reset_identity` with an expected owner deletes only that owner's reservation.
  function Reset(s: Store, key: int, expected: Option<nat>): Store {
    if key in s.reservations && (expected.None? || s.reservations[key] == expected.value)
    then s.(reservations := s.reservations - {key})
    else s
  }

  // The active record that an enqueue under `key` would be deduplicated to.
  function ActiveUnder(s: Store, key: int): Option<nat> {
    if key in s.keys && s.keys[key] in s.records && !s.records[s.keys[key]].terminal then Some(s.keys[key]) else None
  }

  // `enqueue`: the existing active record's id, or the new one.
  function Enqueue(s: Store, key: int, id: nat): (Store, nat) {
    match ActiveUnder(s, key)
    case Some(existing) => (s, existing)
    case None => (s.(records := s.records[id := Stored(key, false)], keys := s.keys[key := id]), id)
  }

  /**
   A key whose last record is terminal or gone, or that has none, takes a new record; one whose last
   record is active answers that record and takes none.
   */
  lemma EnqueueMeans(s: Store, key: int, id: nat)
    ensures key !in s.keys || s.keys[key] !in s.records || s.records[s.keys[key]].terminal ==>
              Enqueue(s, key, id) == (s.(records := s.records[id := Stored(key, false)], keys := s.keys[key := id]), id)
    ensures key in s.keys && s.keys[key] in s.records && !s.records[s.keys[key]].terminal ==>
              Enqueue(s, key, id) == (s, s.keys[key])
  {
  }

  /** A free key is reserved for the caller, a reserved one is not; only a matching owner is deleted. */
  lemma ReservationsMean(s: Store, key: int, id: nat)
    ensures key !in s.reservations ==> Reserve(s, key, id) == (s.(reservations := s.reservations[key := id]), None)
    ensures key in s.reservations ==> Reserve(s, key, id) == (s, Some(s.reservations[key]))
    ensures key in s.reservations ==> key !in Reset(s, key, None).reservations
    ensures key in s.reservations && s.reservations[key] == id ==> key !in Reset(s, key, Some(id)).reservations
    ensures key in s.reservations && s.reservations[key] != id ==> Reset(s, key, Some(id)) == s
    ensures key !in s.reservations ==> Reset(s, key, Some(id)) == s && Reset(s, key, None) == s
  {
  }

  // ---------------------------------------------------------------- enqueue as a client

  datatype Phase =
    | Reserving
    | Persisting                     // owns the reservation, `enqueue` is running
    | Colliding                      // the backend answered with another task's id
    | Checking                       // the enqueue raised: was the record persisted?
    | Releasing                      // it was not: giving the reservation back
    | Returned(id: nat)
    | Raised

  datatype Client = Client(key: int, id: nat, phase: Phase)

  datatype State = State(
    store: Store,
    clients: seq<Client>,
    nextId: nat,
    persisted: set<(int, nat)>,      // every forever record ever persisted, with its key
    resets: set<int>)                // keys that were reset administratively

  function Init(): State {
    State(Store(map[], map[], map[]), [], 0, {}, {})
  }

  // How the awaited `enqueue` ends: a failure may come before or after the record was persisted.
  datatype EnqueueEnd = Answers | RaisesBefore | RaisesAfter

  datatype Action =
    | DoStart(key: int)
    | DoReserve(c: nat)
    | DoEnqueue(c: nat, end: EnqueueEnd)
    | DoCollisionReset(c: nat, reached: bool)    // a raising reset is suppressed
    | DoCheck(c: nat, readable: bool)            // a raising lookup leaves the outcome unverified
    | DoRelease(c: nat, reached: bool)
    | DoAbandon(c: nat)                          // the caller is cancelled outside the `try`
    | DoOrdinaryEnqueue(key: int)                // a task of another uniqueness policy
    | DoFinish(id: nat)
    | DoPurge(id: nat)
    | DoAdminReset(key: int)

  predicate At(s: State, c: nat, phase: Phase) {
    c < |s.clients| && s.clients[c].phase == phase
  }

  predicate Enabled(s: State, a: Action) {
    match a
    case DoReserve(c) => At(s, c, Reserving)
    case DoEnqueue(c, _) => At(s, c, Persisting)
    case DoCollisionReset(c, _) => At(s, c, Colliding)
    case DoCheck(c, _) => At(s, c, Checking)
    case DoRelease(c, _) => At(s, c, Releasing)
    case DoAbandon(c) => c < |s.clients| && !s.clients[c].phase.Returned?
    case DoFinish(id) => id in s.store.records
    // A record is not purged between a failed enqueue and its check.
    case DoPurge(id) =>
      && id in s.store.records && s.store.records[id].terminal
      && forall i :: 0 <= i < |s.clients| && s.clients[i].id == id ==> !s.clients[i].phase.Checking?
    case _ => true
  }

  function SetPhase(s: State, c: nat, phase: Phase): State
    requires c < |s.clients|
  {
    s.(clients := s.clients[c := s.clients[c].(phase := phase)])
  }

  function Purge(s: Store, id: nat): Store
    requires id in s.records
  {
    var key := s.records[id].key;
    s.(records := s.records - {id}, keys := if key in s.keys && s.keys[key] == id then s.keys - {key} else s.keys)
  }

  function EnqueueStep(s: State, c: nat, end: EnqueueEnd): State
    requires c < |s.clients|
  {
    var client := s.clients[c];
    var (store, id) := Enqueue(s.store, client.key, client.id);
    if end.RaisesBefore? then SetPhase(s, c, Checking)
    else
      var t := s.(store := store,
                  persisted := if id == client.id then s.persisted + {(client.key, id)} else s.persisted);
      SetPhase(t, c, if end.RaisesAfter? then Checking else if id != client.id then Colliding else Returned(id))
  }

  function Apply(s: State, a: Action): State
    requires Enabled(s, a)
  {
    match a
    case DoStart(key) => s.(clients := s.clients + [Client(key, s.nextId, Reserving)], nextId := s.nextId + 1)
    case DoReserve(c) =>
      var (store, owner) := Reserve(s.store, s.clients[c].key, s.clients[c].id);
      SetPhase(s.(store := store), c, if owner.Some? then Returned(owner.value) else Persisting)
    case DoEnqueue(c, end) => EnqueueStep(s, c, end)
    case DoCollisionReset(c, reached) =>
      var store := if reached then Reset(s.store, s.clients[c].key, Some(s.clients[c].id)) else s.store;
      SetPhase(s.(store := store), c, Checking)
    case DoCheck(c, readable) =>
      SetPhase(s, c, if readable && s.clients[c].id !in s.store.records then Releasing else Raised)
    case DoRelease(c, reached) =>
      var store := if reached then Reset(s.store, s.clients[c].key, Some(s.clients[c].id)) else s.store;
      SetPhase(s.(store := store), c, Raised)
    case DoAbandon(c) => SetPhase(s, c, Raised)
    case DoOrdinaryEnqueue(key) =>
      s.(store := Enqueue(s.store, key, s.nextId).0, nextId := s.nextId + 1)
    case DoFinish(id) => s.(store := s.store.(records := s.store.records[id := s.store.records[id].(terminal := true)]))
    case DoPurge(id) => s.(store := Purge(s.store, id))
    case DoAdminReset(key) => s.(store := Reset(s.store, key, None), resets := s.resets + {key})
  }

  /** Purging a finished record frees its key, and unmaps no key that has gone to another record. */
  lemma PurgeMeans(s: Store, id: nat, key: int)
    requires id in s.records && s.records[id].terminal
    ensures Purge(s, id).records == s.records - {id} && Purge(s, id).reservations == s.reservations
    ensures ActiveUnder(Purge(s, id), key) == ActiveUnder(s, key)
    ensures key == s.records[id].key && key in s.keys && s.keys[key] == id ==> key !in Purge(s, id).keys
    ensures key in s.keys && s.keys[key] != id ==> key in Purge(s, id).keys && Purge(s, id).keys[key] == s.keys[key]
  {
  }

  // ---------------------------------------------------------------- the invariant

  ghost predicate FreshInv(s: State) {
    && (forall id :: id in s.store.records ==> id < s.nextId)
    && (forall p :: p in s.persisted ==> p.1 < s.nextId)
    && (forall i :: 0 <= i < |s.clients| ==> s.clients[i].id < s.nextId)
    && (forall i, j :: 0 <= i < j < |s.clients| ==> s.clients[i].id != s.clients[j].id)
  }

  // What a client's phase says about its own id.
  ghost predicate ClientInv(s: State, c: Client) {
    var mine := (c.key, c.id);
    && (c.phase.Reserving? || c.phase.Persisting? ==> c.id !in s.store.records)
    && (c.phase.Reserving? || c.phase.Persisting? || c.phase.Colliding? || c.phase.Releasing? ==> mine !in s.persisted)
    && (c.phase.Checking? && mine in s.persisted ==> c.id in s.store.records)
    && (c.phase.Persisting? && c.key !in s.resets ==> Owns(s, c.key, c.id))
  }

  ghost predicate Owns(s: State, key: int, id: nat) {
    key in s.store.reservations && s.store.reservations[key] == id
  }

  ghost predicate Inv(s: State) {
    && FreshInv(s)
    && (forall i :: 0 <= i < |s.clients| ==> ClientInv(s, s.clients[i]))
    && (forall p :: p in s.persisted && p.0 !in s.resets ==> Owns(s, p.0, p.1))
  }

  // ---------------------------------------------------------------- who may delete a reservation

  // The client whose compare-and-delete a step performs.
  function Deleter(s: State, a: Action): Option<Client>
    requires Enabled(s, a)
  {
    match a
    case DoCollisionReset(c, true) => Some(s.clients[c])
    case DoRelease(c, true) => Some(s.clients[c])
    case _ => None
  }

  /**
   Whatever else happens, including administrative resets of the key: apart from such a reset, a
   reservation only ever disappears through its own owner, and never once the owner's record was
   persisted.
   */
  lemma OnlyItsOwnerReleases(s: State, a: Action, key: int)
    requires Inv(s) && Enabled(s, a) && !a.DoAdminReset?
    requires key in s.store.reservations && !Owns(Apply(s, a), key, s.store.reservations[key])
    ensures Deleter(s, a).Some? && Deleter(s, a).value.key == key
    ensures Deleter(s, a).value.id == s.store.reservations[key]
    ensures (key, s.store.reservations[key]) !in s.persisted
  {
  }

  // ---------------------------------------------------------------- every step keeps it

  // Clients that a step does not touch.
  lemma OthersKept(s: State, t: State, c: Client)
    requires ClientInv(s, c)
    requires c.phase.Reserving? || c.phase.Persisting? ==> c.id !in t.store.records
    requires (c.key, c.id) in t.persisted ==> (c.key, c.id) in s.persisted
    requires c.phase.Checking? && c.id in s.store.records ==> c.id in t.store.records
    requires c.phase.Persisting? && c.key !in t.resets && Owns(s, c.key, c.id) ==> Owns(t, c.key, c.id)
    requires s.resets <= t.resets
    ensures ClientInv(t, c)
  {
  }

  lemma StartInv(s: State, key: int)
    requires Inv(s)
    ensures Inv(Apply(s, DoStart(key)))
  {
  }

  lemma ReserveInv(s: State, c: nat)
    requires Inv(s) && Enabled(s, DoReserve(c))
    ensures Inv(Apply(s, DoReserve(c)))
  {
  }

  lemma EnqueueInv(s: State, c: nat, end: EnqueueEnd)
    requires Inv(s) && Enabled(s, DoEnqueue(c, end))
    ensures Inv(Apply(s, DoEnqueue(c, end)))
  {
    var t := Apply(s, DoEnqueue(c, end));
    assert ClientInv(s, s.clients[c]);
    forall i | 0 <= i < |t.clients| ensures ClientInv(t, t.clients[i]) {
      if i != c {
        assert ClientInv(s, s.clients[i]);
        OthersKept(s, t, s.clients[i]);
      }
    }
  }

  // A compare-and-delete by a client that has not persisted its record.
  lemma ResetInv(s: State, c: nat, reached: bool, next: Phase)
    requires Inv(s) && c < |s.clients| && (next.Checking? || next.Raised?)
    requires (s.clients[c].key, s.clients[c].id) !in s.persisted
    ensures Inv(SetPhase(s.(store := if reached then Reset(s.store, s.clients[c].key, Some(s.clients[c].id)) else s.store),
                         c, next))
  {
  }

  lemma PhaseOnlyInv(s: State, c: nat, next: Phase)
    requires Inv(s) && c < |s.clients|
    requires ClientInv(s, s.clients[c].(phase := next))
    ensures Inv(SetPhase(s, c, next))
  {
  }

  lemma OrdinaryInv(s: State, key: int)
    requires Inv(s)
    ensures Inv(Apply(s, DoOrdinaryEnqueue(key)))
  {
  }

  lemma FinishInv(s: State, id: nat)
    requires Inv(s) && id in s.store.records
    ensures Inv(Apply(s, DoFinish(id)))
  {
  }

  lemma PurgeInv(s: State, id: nat)
    requires Inv(s) && Enabled(s, DoPurge(id))
    ensures Inv(Apply(s, DoPurge(id)))
  {
  }

  lemma AdminResetInv(s: State, key: int)
    requires Inv(s)
    ensures Inv(Apply(s, DoAdminReset(key)))
  {
  }

  lemma StepKeepsInv(s: State, a: Action)
    requires Inv(s) && Enabled(s, a)
    ensures Inv(Apply(s, a))
  {
    match a
    case DoStart(key) => StartInv(s, key);
    case DoReserve(c) => ReserveInv(s, c);
    case DoEnqueue(c, end) => EnqueueInv(s, c, end);
    case DoCollisionReset(c, reached) =>
      assert ClientInv(s, s.clients[c]);
      ResetInv(s, c, reached, Checking);
    case DoCheck(c, readable) =>
      assert ClientInv(s, s.clients[c]);
      PhaseOnlyInv(s, c, if readable && s.clients[c].id !in s.store.records then Releasing else Raised);
    case DoRelease(c, reached) =>
      assert ClientInv(s, s.clients[c]);
      ResetInv(s, c, reached, Raised);
    case DoAbandon(c) => PhaseOnlyInv(s, c, Raised);
    case DoOrdinaryEnqueue(key) => OrdinaryInv(s, key);
    case DoFinish(id) => FinishInv(s, id);
    case DoPurge(id) => PurgeInv(s, id);
    case DoAdminReset(key) => AdminResetInv(s, key);
  }

  // ---------------------------------------------------------------- runs

  ghost predicate IsRun(states: seq<State>, actions: seq<Action>) {
    && |states| == |actions| + 1
    && states[0] == Init()
    && (forall i :: 0 <= i < |actions| ==>
          Enabled(states[i], actions[i]) && states[i + 1] == Apply(states[i], actions[i]))
  }

  lemma {:induction false} RunKeepsInv(states: seq<State>, actions: seq<Action>, n: nat)
    requires IsRun(states, actions) && n < |states|
    ensures Inv(states[n])
  {
    hide Inv;
    if n == 0 {
      InitInv();
    } else {
      RunKeepsInv(states, actions, n - 1);
      StepKeepsInv(states[n - 1], actions[n - 1]);
    }
  }

  lemma InitInv()
    ensures Inv(Init())
  {
  }

  lemma {:induction false} ResetsAreLogged(states: seq<State>, actions: seq<Action>, n: nat, key: int)
    requires IsRun(states, actions) && n < |states|
    requires forall i :: 0 <= i < n ==> actions[i] != DoAdminReset(key)
    ensures key !in states[n].resets
  {
    if n > 0 { ResetsAreLogged(states, actions, n - 1, key); }
  }

  /**
   Without an administrative reset of a key, at most one forever record is ever persisted under it,
   and it owns the key's reservation from then on: through concurrent enqueues, ambiguous failures
   and collisions with tasks of another policy, whose reservation is released twice.
   */
  lemma OneForeverRecordPerKey(states: seq<State>, actions: seq<Action>, n: nat, key: int, a: nat, b: nat)
    requires IsRun(states, actions) && n < |states|
    requires forall i :: 0 <= i < n ==> actions[i] != DoAdminReset(key)
    requires (key, a) in states[n].persisted && (key, b) in states[n].persisted
    ensures a == b && Owns(states[n], key, a)
  {
    RunKeepsInv(states, actions, n);
    ResetsAreLogged(states, actions, n, key);
    var p, q := (key, a), (key, b);
    assert p in states[n].persisted && q in states[n].persisted;
    assert Owns(states[n], p.0, p.1) && Owns(states[n], q.0, q.1);
  }

  // In any run, a persisted forever record loses its reservation only to an administrative reset.
  lemma PersistedKeepsReservation(states: seq<State>, actions: seq<Action>, n: nat, key: int, id: nat)
    requires IsRun(states, actions) && n < |actions|
    requires (key, id) in states[n].persisted && Owns(states[n], key, id)
    requires actions[n] != DoAdminReset(key)
    ensures Owns(states[n + 1], key, id)
  {
    RunKeepsInv(states, actions, n);
    if !Owns(states[n + 1], key, id) && !actions[n].DoAdminReset? {
      OnlyItsOwnerReleases(states[n], actions[n], key);
    }
  }

  // An undisturbed enqueue under a free key persists its record.
  lemma FreeKeyPersists(s: State, key: int) returns (started: State, reserved: State, persisted: State)
    requires key !in s.store.reservations && ActiveUnder(s.store, key).None?
    ensures started == Apply(s, DoStart(key))
    ensures Enabled(started, DoReserve(|s.clients|)) && reserved == Apply(started, DoReserve(|s.clients|))
    ensures Enabled(reserved, DoEnqueue(|s.clients|, Answers))
    ensures persisted == Apply(reserved, DoEnqueue(|s.clients|, Answers))
    ensures persisted.persisted == s.persisted + {(key, s.nextId)} && |persisted.clients| == |s.clients| + 1
    ensures persisted.store == Store(s.store.records[s.nextId := Stored(key, false)], s.store.keys[key := s.nextId],
                                     s.store.reservations[key := s.nextId])
    ensures persisted.nextId == s.nextId + 1
  {
    started := Apply(s, DoStart(key));
    reserved := Apply(started, DoReserve(|s.clients|));
    persisted := Apply(reserved, DoEnqueue(|s.clients|, Answers));
  }

  // The reset is what it takes: after one, a second forever record can be persisted.
  lemma ResetAllowsASecond() returns (states: seq<State>, actions: seq<Action>)
    ensures IsRun(states, actions)
    ensures var last := states[|states| - 1]; (7, 0) in last.persisted && (7, 1) in last.persisted
  {
    actions := [DoStart(7), DoReserve(0), DoEnqueue(0, Answers), DoFinish(0), DoAdminReset(7),
                DoStart(7), DoReserve(1), DoEnqueue(1, Answers)];
    var s1, s2, s3 := FreeKeyPersists(Init(), 7);
    var s4 := Apply(s3, DoFinish(0));
    var s5 := Apply(s4, DoAdminReset(7));
    assert s5.store.records[0].terminal && 7 !in s5.store.reservations;
    var s6, s7, s8 := FreeKeyPersists(s5, 7);
    states := [Init(), s1, s2, s3, s4, s5, s6, s7, s8];
    hide Apply, Enabled;
  }

  // ---------------------------------------------------------------- what a caller is told

  // A caller that was answered its own id has persisted the record; it had won the reservation.
  ghost predicate AnsweredPersisted(s: State) {
    forall i :: 0 <= i < |s.clients| && s.clients[i].phase == Returned(s.clients[i].id) ==>
                  (s.clients[i].key, s.clients[i].id) in s.persisted
  }

  ghost predicate OwnersAreOthers(s: State) {
    && (forall key :: key in s.store.reservations ==> s.store.reservations[key] < s.nextId)
    && (forall i :: 0 <= i < |s.clients| && s.clients[i].phase.Reserving? ==>
          forall key :: key in s.store.reservations ==> s.store.reservations[key] != s.clients[i].id)
  }

  lemma StepKeepsAnswers(s: State, a: Action)
    requires Inv(s) && OwnersAreOthers(s) && AnsweredPersisted(s) && Enabled(s, a)
    ensures OwnersAreOthers(Apply(s, a)) && AnsweredPersisted(Apply(s, a))
  {
  }

  /** A caller that is answered with its own id has its record persisted, in every reachable state. */
  lemma {:induction false} AnswersArePersisted(states: seq<State>, actions: seq<Action>, n: nat)
    requires IsRun(states, actions) && n < |states|
    ensures OwnersAreOthers(states[n]) && AnsweredPersisted(states[n])
  {
    if n > 0 {
      AnswersArePersisted(states, actions, n - 1);
      RunKeepsInv(states, actions, n - 1);
      hide Inv, OwnersAreOthers, AnsweredPersisted, Apply, Enabled;
      StepKeepsAnswers(states[n - 1], actions[n - 1]);
    }
  }

  /**
   What one await of an enqueue does: the loser of a reservation is answered its owner; the winner
   persists its record, or collides with an active one; whoever fails after that looks the record up,
   and gives the reservation back only when it is readably absent.
   */
  lemma ClientStepsMean(s: State, c: nat, end: EnqueueEnd, flag: bool)
    requires Inv(s) && c < |s.clients|
    ensures var me := s.clients[c];
            && (me.phase == Reserving ==>
                  Apply(s, DoReserve(c)).clients[c].phase
                  == if me.key in s.store.reservations then Returned(s.store.reservations[me.key]) else Persisting)
            && (me.phase == Persisting ==>
                  var t := Apply(s, DoEnqueue(c, end));
                  if end == RaisesBefore then t.store == s.store && t.clients[c].phase == Checking
                  else if ActiveUnder(s.store, me.key).Some? then
                    t.store == s.store && t.clients[c].phase == (if end == Answers then Colliding else Checking)
                  else
                    && me.id in t.store.records && t.store.records[me.id] == Stored(me.key, false)
                    && (me.key, me.id) in t.persisted
                    && t.clients[c].phase == (if end == Answers then Returned(me.id) else Checking))
            && (me.phase == Colliding ==> Apply(s, DoCollisionReset(c, flag)).clients[c].phase == Checking)
            && (me.phase == Checking ==>
                  Apply(s, DoCheck(c, flag)).clients[c].phase
                  == if flag && me.id !in s.store.records then Releasing else Raised)
            && (me.phase == Releasing ==>
                  var t := Apply(s, DoRelease(c, flag));
                  t.clients[c].phase == Raised && (flag ==> !Owns(t, me.key, me.id)))
  {
    assert ClientInv(s, s.clients[c]);
    hide Inv;
  }
}
