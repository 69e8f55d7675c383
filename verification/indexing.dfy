/**
  The mapping driven by the host: events applied one at a time in delivery
  order. States the invariant every store reached this way keeps, and the
  consequences of the revision index never advancing.
 */
module Indexing {
  import opened Wrappers
  import opened Hex
  import opened Decimal
  import opened Schema
  import opened SuperPayroll

  /** Dispatches one event to its handler. */
  function Apply(keccak: Keccak256, store: Store, event: Event): Store
  {
    match event
    case EmployeeAdded(e) => HandleEmployeeAdded(store, e)
    case EmployeeDeleted(e) => HandleEmployeeDeleted(store, e)
    case FlowUpdated(e) => HandleFlowUpdated(keccak, store, e)
  }

  /** Applies the events in order. No record is ever removed. */
  function Replay(keccak: Keccak256, store: Store, events: seq<Event>): (store': Store)
    ensures store.employees.Keys <= store'.employees.Keys
    ensures store.streams.Keys <= store'.streams.Keys
    ensures store.revisions.Keys <= store'.revisions.Keys
    decreases |events|
  {
    if |events| == 0 then store else Replay(keccak, Apply(keccak, store, events[0]), events[1..])
  }

  function Timestamp(event: Event): nat
  {
    match event
    case EmployeeAdded(e) => e.timestamp
    case EmployeeDeleted(e) => e.timestamp
    case FlowUpdated(e) => e.timestamp
  }

  /** Block timestamps never decrease along the delivery order, starting from `now`. */
  predicate InOrder(now: nat, events: seq<Event>)
    decreases |events|
  {
    |events| == 0 || (now <= Timestamp(events[0]) && InOrder(Timestamp(events[0]), events[1..]))
  }

  /** The timestamp of the last event, or `now` when there is none. */
  function LastTimestamp(now: nat, events: seq<Event>): nat
    decreases |events|
  {
    if |events| == 0 then now else LastTimestamp(Timestamp(events[0]), events[1..])
  }

  /** A zero rate only on a TERMINATED or CREATED stream, a non-zero one only on UPDATED or CREATED. */
  predicate StatusAgrees(s: Stream)
  {
    && (s.status == StreamStatus.Terminated ==> s.flowRate == 0)
    && (s.status == StreamStatus.Updated ==> s.flowRate != 0)
  }

  /** Every employee sits at the hex text of its own address. */
  predicate EmployeesWellFormed(employees: map<string, Employee>)
  {
    forall id :: id in employees ==> id == ToHex(employees[id].addr)
  }

  /**
    Every stream sits at the id built from its own address texts and index 0,
    its `to` is its receiver, and its status agrees with its rate.
   */
  predicate StreamsWellFormed(streams: map<string, Stream>)
  {
    forall id :: id in streams ==>
      var s := streams[id];
      && id == s.sender + "-" + s.receiver + "-" + s.token + "-" + NumberText(0)
      && s.to == s.receiver
      && StatusAgrees(s)
  }

  /** Every revision record has both indices 0 and points at a stored stream. */
  predicate RevisionsWellFormed(revisions: map<string, StreamRevision>, streams: map<string, Stream>)
  {
    forall id :: id in revisions ==>
      var r := revisions[id];
      && r.revisionIndex == 0 && r.periodRevisionIndex == 0
      && r.mostRecentStream.Some? && r.mostRecentStream.value in streams
  }

  /** The shape of every store the mapping builds from the empty store. */
  predicate WellFormed(store: Store)
  {
    && EmployeesWellFormed(store.employees)
    && StreamsWellFormed(store.streams)
    && RevisionsWellFormed(store.revisions, store.streams)
  }

  /** Every record is stamped no later than `now`, and no stream was updated before it was created. */
  predicate StampedBy(store: Store, now: nat)
  {
    && (forall id :: id in store.employees ==> store.employees[id].updatedAt <= now)
    && (forall id :: id in store.streams ==>
          store.streams[id].createdAt <= store.streams[id].updatedAt <= now)
  }

  lemma EmptyStoreWellFormed()
    ensures WellFormed(EmptyStore) && StampedBy(EmptyStore, 0)
  {
  }

  /**
    Every store the mapping builds from the empty store, with events in block
    order, is well-formed, and every stream in it has createdAt <= updatedAt.
   */
  lemma ReplayFromEmptyStore(keccak: Keccak256, events: seq<Event>)
    requires InOrder(0, events)
    ensures var store := Replay(keccak, EmptyStore, events);
      && WellFormed(store)
      && forall id :: id in store.streams ==> store.streams[id].createdAt <= store.streams[id].updatedAt
  {
    EmptyStoreWellFormed();
    ReplayPreservesWellFormed(keccak, EmptyStore, events);
    ReplayPreservesStampedBy(keccak, EmptyStore, 0, events);
  }

  lemma FlowPreservesWellFormed(keccak: Keccak256, store: Store, e: FlowUpdatedEvent)
    requires WellFormed(store)
    ensures WellFormed(HandleFlowUpdated(keccak, store, e))
  {
    StreamsStayWellFormed(keccak, store, e);
    RevisionsStayWellFormed(keccak, store, e);
  }

  lemma StreamsStayWellFormed(keccak: Keccak256, store: Store, e: FlowUpdatedEvent)
    requires WellFormed(store)
    ensures StreamsWellFormed(HandleFlowUpdated(keccak, store, e).streams)
  {
    var store' := HandleFlowUpdated(keccak, store, e);
    var revision := GetOrInitStreamRevision(keccak, store, e.sender, e.receiver, e.token);
    assert revision.revisionIndex == 0;
    var streamId := StreamID(e.sender, e.receiver, e.token, 0);
    forall id | id in store'.streams
      ensures var s := store'.streams[id];
        id == s.sender + "-" + s.receiver + "-" + s.token + "-" + NumberText(0) && s.to == s.receiver && StatusAgrees(s)
    {
      if id != streamId {
        assert store'.streams[id] == store.streams[id];
      } else if streamId !in store.streams {
        assert store'.streams[id].sender == ToHex(e.sender);
      }
    }
  }

  lemma RevisionsStayWellFormed(keccak: Keccak256, store: Store, e: FlowUpdatedEvent)
    requires WellFormed(store)
    ensures var store' := HandleFlowUpdated(keccak, store, e);
      RevisionsWellFormed(store'.revisions, store'.streams)
  {
    var store' := HandleFlowUpdated(keccak, store, e);
    var revisionId := StreamRevisionID(keccak, e.sender, e.receiver, e.token);
    forall id | id in store'.revisions
      ensures var r := store'.revisions[id];
        && r.revisionIndex == 0 && r.periodRevisionIndex == 0
        && r.mostRecentStream.Some? && r.mostRecentStream.value in store'.streams
    {
      if id != revisionId {
        assert store'.revisions[id] == store.revisions[id];
      }
    }
  }

  lemma ApplyPreservesWellFormed(keccak: Keccak256, store: Store, event: Event)
    requires WellFormed(store)
    ensures WellFormed(Apply(keccak, store, event))
  {
    match event
    case EmployeeAdded(e) =>
      assert EmployeesWellFormed(HandleEmployeeAdded(store, e).employees);
    case EmployeeDeleted(e) =>
      assert EmployeesWellFormed(HandleEmployeeDeleted(store, e).employees);
    case FlowUpdated(e) =>
      FlowPreservesWellFormed(keccak, store, e);
  }

  lemma FlowPreservesStampedBy(keccak: Keccak256, store: Store, now: nat, e: FlowUpdatedEvent)
    requires StampedBy(store, now) && now <= e.timestamp
    ensures StampedBy(HandleFlowUpdated(keccak, store, e), e.timestamp)
  {
    var store' := HandleFlowUpdated(keccak, store, e);
    var streamId := CurrentStreamID(keccak, store, e.sender, e.receiver, e.token);
    forall id | id in store'.streams
      ensures store'.streams[id].createdAt <= store'.streams[id].updatedAt <= e.timestamp
    {
      if id != streamId {
        assert store'.streams[id] == store.streams[id];
      }
    }
  }

  lemma ApplyPreservesStampedBy(keccak: Keccak256, store: Store, now: nat, event: Event)
    requires StampedBy(store, now) && now <= Timestamp(event)
    ensures StampedBy(Apply(keccak, store, event), Timestamp(event))
  {
    match event
    case EmployeeAdded(e) =>
    case EmployeeDeleted(e) =>
    case FlowUpdated(e) =>
      FlowPreservesStampedBy(keccak, store, now, e);
  }

  /** Every store reached from a well-formed one by any events is well-formed. */
  lemma {:induction false} ReplayPreservesWellFormed(keccak: Keccak256, store: Store, events: seq<Event>)
    requires WellFormed(store)
    ensures WellFormed(Replay(keccak, store, events))
    decreases |events|
  {
    if |events| > 0 {
      ApplyPreservesWellFormed(keccak, store, events[0]);
      ReplayPreservesWellFormed(keccak, Apply(keccak, store, events[0]), events[1..]);
    }
  }

  /** Delivered in block order, events leave every stream with createdAt <= updatedAt. */
  lemma {:induction false} ReplayPreservesStampedBy(keccak: Keccak256, store: Store, now: nat, events: seq<Event>)
    requires StampedBy(store, now) && InOrder(now, events)
    ensures StampedBy(Replay(keccak, store, events), LastTimestamp(now, events))
    decreases |events|
  {
    if |events| > 0 {
      ApplyPreservesStampedBy(keccak, store, now, events[0]);
      ReplayPreservesStampedBy(keccak, Apply(keccak, store, events[0]), Timestamp(events[0]), events[1..]);
    }
  }

  /** In a well-formed store every triple's flow events address index 0. */
  lemma CurrentStreamIDIsIndexZero(keccak: Keccak256, store: Store, sender: Address, receiver: Address, token: Address)
    requires WellFormed(store)
    ensures CurrentStreamID(keccak, store, sender, receiver, token) == StreamID(sender, receiver, token, 0)
  {
  }

  /** One event of any kind never changes the stream id any triple's flow events address. */
  lemma ApplyKeepsCurrentStreamID(keccak: Keccak256, store: Store, event: Event, sender: Address, receiver: Address, token: Address)
    ensures CurrentStreamID(keccak, Apply(keccak, store, event), sender, receiver, token)
         == CurrentStreamID(keccak, store, sender, receiver, token)
  {
    if event.FlowUpdated? {
      var e := event.flow;
      var id := StreamRevisionID(keccak, sender, receiver, token);
      if id == StreamRevisionID(keccak, e.sender, e.receiver, e.token) && id !in store.revisions {
        assert Apply(keccak, store, event).revisions[id].revisionIndex == 0;
      }
    }
  }

  /**
    The revision index never advances, so whatever the events, a triple's
    flow events keep addressing the same stream id.
   */
  lemma {:induction false} ReplayKeepsCurrentStreamID(
    keccak: Keccak256, store: Store, events: seq<Event>, sender: Address, receiver: Address, token: Address)
    ensures CurrentStreamID(keccak, Replay(keccak, store, events), sender, receiver, token)
         == CurrentStreamID(keccak, store, sender, receiver, token)
    decreases |events|
  {
    if |events| > 0 {
      ApplyKeepsCurrentStreamID(keccak, store, events[0], sender, receiver, token);
      ReplayKeepsCurrentStreamID(keccak, Apply(keccak, store, events[0]), events[1..], sender, receiver, token);
    }
  }

  /**
    A zero rate terminates the triple's stream, and a later non-zero rate
    brings the same record back as UPDATED under the same id, keeping its
    creation time, instead of starting a new revision.
   */
  lemma TerminatedStreamRevives(keccak: Keccak256, store: Store, stop: FlowUpdatedEvent, restart: FlowUpdatedEvent)
    requires stop.sender == restart.sender && stop.receiver == restart.receiver && stop.token == restart.token
    requires stop.flowRate == 0 && restart.flowRate != 0
    ensures var streamId := CurrentStreamID(keccak, store, stop.sender, stop.receiver, stop.token);
      var stopped := HandleFlowUpdated(keccak, store, stop);
      var restarted := HandleFlowUpdated(keccak, stopped, restart);
      && CurrentStreamID(keccak, stopped, stop.sender, stop.receiver, stop.token) == streamId
      && (streamId in store.streams ==> stopped.streams[streamId].status == StreamStatus.Terminated)
      && restarted.streams[streamId].status == StreamStatus.Updated
      && restarted.streams[streamId].flowRate == restart.flowRate
      && restarted.streams[streamId].createdAt == stopped.streams[streamId].createdAt
      && restarted.streams.Keys == stopped.streams.Keys
  {
    ApplyKeepsCurrentStreamID(keccak, store, FlowUpdated(stop), stop.sender, stop.receiver, stop.token);
  }

  /** Re-adding an employee with the same event is the same as adding it once. */
  lemma EmployeeAddedIdempotent(store: Store, e: EmployeeAddedEvent)
    ensures HandleEmployeeAdded(HandleEmployeeAdded(store, e), e) == HandleEmployeeAdded(store, e)
  {
  }

  /** Employee events and flow events touch disjoint maps, so their order does not matter. */
  lemma EmployeeAndFlowEventsCommute(keccak: Keccak256, store: Store, employeeEvent: Event, flow: FlowUpdatedEvent)
    requires !employeeEvent.FlowUpdated?
    ensures Apply(keccak, Apply(keccak, store, employeeEvent), FlowUpdated(flow))
         == Apply(keccak, Apply(keccak, store, FlowUpdated(flow)), employeeEvent)
  {
  }

}
