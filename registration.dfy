/** The event registration rules: capacity (a truthy `maxParticipants`), one registration per
    (event, user) pair, and an unregister that deletes only that pair. */
module Registration {
  import opened Optional
  import opened Tables
  import Access

  /** The participant rows of one event. */
  function Roster(parts: map<ParticipantKey, int>, eventId: Id): set<ParticipantKey> {
    set k | k in parts && k.0 == eventId
  }

  /** `SELECT COUNT(*) FROM event_participants WHERE eventId = ?`. */
  function Count(parts: map<ParticipantKey, int>, eventId: Id): nat {
    |Roster(parts, eventId)|
  }

  /** `if (event.maxParticipants)`: null and 0 mean no limit. */
  predicate Capped(e: Event) {
    e.maxParticipants.Some? && e.maxParticipants.value != 0
  }

  /** The verdict on `callerId` registering for `eventId`. Failures come in this order:
      unauthenticated, event missing, event full, already registered (the UNIQUE pair). */
  function RegisterVerdict(users: map<Id, UserRow>, events: map<Id, Event>, parts: map<ParticipantKey, int>,
                           eventId: Id, callerId: Id): (o: Outcome)
    ensures o.Pass? <==>
      && callerId != "" && callerId in users && eventId in events
      && !(Capped(events[eventId]) && Count(parts, eventId) >= events[eventId].maxParticipants.value)
      && (eventId, callerId) !in parts
    ensures o == Fail(EventFull) ==> eventId in events && Capped(events[eventId])
    ensures callerId == "" || callerId !in users ==> o == Fail(Unauthorized)
    ensures callerId != "" && callerId in users && eventId !in events ==> o == Fail(NotFound)
    ensures callerId != "" && callerId in users && eventId in events ==>
      if Capped(events[eventId]) && Count(parts, eventId) >= events[eventId].maxParticipants.value
      then o == Fail(EventFull)
      else (eventId, callerId) in parts ==> o == Fail(AlreadyRegistered)
  {
    if Access.IsAuthenticated(users, callerId).Fail? then Fail(Unauthorized)
    else if eventId !in events then Fail(NotFound)
    else if Capped(events[eventId]) && Count(parts, eventId) >= events[eventId].maxParticipants.value then Fail(EventFull)
    else if (eventId, callerId) in parts then Fail(AlreadyRegistered)
    else Pass
  }

  /** Inserting a new pair adds one to that event's count and leaves every other event's count. */
  lemma CountAfterInsert(parts: map<ParticipantKey, int>, k: ParticipantKey, at: int)
    requires k !in parts
    ensures Count(parts[k := at], k.0) == Count(parts, k.0) + 1
    ensures forall e :: e != k.0 ==> Count(parts[k := at], e) == Count(parts, e)
  {
    assert Roster(parts[k := at], k.0) == Roster(parts, k.0) + {k};
    forall e | e != k.0 ensures Count(parts[k := at], e) == Count(parts, e) {
      assert Roster(parts[k := at], e) == Roster(parts, e);
    }
  }

  /** Deleting an existing pair takes one from that event's count; deleting a missing pair changes nothing. */
  lemma CountAfterDelete(parts: map<ParticipantKey, int>, k: ParticipantKey)
    ensures k in parts ==> Count(parts - {k}, k.0) == Count(parts, k.0) - 1
    ensures k !in parts ==> parts - {k} == parts
  {
    if k in parts {
      assert Roster(parts, k.0) == Roster(parts - {k}, k.0) + {k};
    }
  }

  /** A registration that passes never takes an event above its capacity. */
  lemma RegistrationRespectsCapacity(users: map<Id, UserRow>, events: map<Id, Event>, parts: map<ParticipantKey, int>,
                                     eventId: Id, callerId: Id, at: int)
    requires RegisterVerdict(users, events, parts, eventId, callerId).Pass?
    ensures Count(parts[(eventId, callerId) := at], eventId) == Count(parts, eventId) + 1
    ensures Capped(events[eventId]) ==> Count(parts[(eventId, callerId) := at], eventId) <= events[eventId].maxParticipants.value
  {
    CountAfterInsert(parts, (eventId, callerId), at);
  }

  /** A user who unregisters can register again, provided the event was within capacity. */
  lemma ReRegisterAfterUnregister(users: map<Id, UserRow>, events: map<Id, Event>, parts: map<ParticipantKey, int>,
                                  eventId: Id, callerId: Id)
    requires callerId != "" && callerId in users && eventId in events
    requires (eventId, callerId) in parts
    requires Capped(events[eventId]) ==> Count(parts, eventId) <= events[eventId].maxParticipants.value
    ensures RegisterVerdict(users, events, parts - {(eventId, callerId)}, eventId, callerId) == Pass
  {
    CountAfterDelete(parts, (eventId, callerId));
  }

  /** The last seat goes to the registration that finds one free and the next one is refused:
      with capacity `n`, a count of `n - 1` passes and a count of `n` is full. */
  lemma LastSeat(users: map<Id, UserRow>, events: map<Id, Event>, parts: map<ParticipantKey, int>,
                 eventId: Id, callerId: Id)
    requires callerId != "" && callerId in users && eventId in events && Capped(events[eventId])
    requires (eventId, callerId) !in parts
    ensures Count(parts, eventId) == events[eventId].maxParticipants.value - 1 ==>
      RegisterVerdict(users, events, parts, eventId, callerId) == Pass
    ensures Count(parts, eventId) == events[eventId].maxParticipants.value ==>
      RegisterVerdict(users, events, parts, eventId, callerId) == Fail(EventFull)
  {
  }
}
