/**
  Worked event histories: a stream's first flow, an update, a termination and
  a restart, and an employee added then deleted.
 */
module Scenarios {
  import opened Wrappers
  import opened Hex
  import opened Decimal
  import opened Schema
  import opened SuperPayroll

  /** The first flow for a triple creates one CREATED stream at index 0 and one revision record pointing at it. */
  lemma FirstFlowCreatesStream(keccak: Keccak256, alice: Address, bob: Address, token: Address, tx: Hash32)
    ensures var store := HandleFlowUpdated(keccak, EmptyStore, FlowUpdatedEvent(alice, bob, token, 1000, 100, tx));
      var streamId := StreamID(alice, bob, token, 0);
      && store.streams == map[streamId := Stream(ToHex(alice), ToHex(bob), ToHex(bob), ToHex(token),
                                                 StreamStatus.Created, 1000, 100, 100, ToHex(tx))]
      && store.revisions == map[StreamRevisionID(keccak, alice, bob, token) := StreamRevision(0, 0, Some(streamId))]
      && store.employees == map[]
  {
  }

  /**
    Rates 1000, 500, 0 and then 1000 again at times 100, 200, 300, 400 all
    land on the one stream at index 0: CREATED, UPDATED, TERMINATED, and
    back to UPDATED, with its creation time and transaction hash kept.
   */
  lemma FlowHistoryStaysOnOneStream(keccak: Keccak256, alice: Address, bob: Address, token: Address, tx1: Hash32, tx2: Hash32, tx3: Hash32, tx4: Hash32)
    ensures var s1 := HandleFlowUpdated(keccak, EmptyStore, FlowUpdatedEvent(alice, bob, token, 1000, 100, tx1));
      var s2 := HandleFlowUpdated(keccak, s1, FlowUpdatedEvent(alice, bob, token, 500, 200, tx2));
      var s3 := HandleFlowUpdated(keccak, s2, FlowUpdatedEvent(alice, bob, token, 0, 300, tx3));
      var s4 := HandleFlowUpdated(keccak, s3, FlowUpdatedEvent(alice, bob, token, 1000, 400, tx4));
      var streamId := StreamID(alice, bob, token, 0);
      var created := Stream(ToHex(alice), ToHex(bob), ToHex(bob), ToHex(token), StreamStatus.Created, 1000, 100, 100, ToHex(tx1));
      && s2.streams == map[streamId := created.(status := StreamStatus.Updated, flowRate := 500, updatedAt := 200)]
      && s3.streams == map[streamId := created.(status := StreamStatus.Terminated, flowRate := 0, updatedAt := 300)]
      && s4.streams == map[streamId := created.(status := StreamStatus.Updated, flowRate := 1000, updatedAt := 400)]
      && s4.revisions == map[StreamRevisionID(keccak, alice, bob, token) := StreamRevision(0, 0, Some(streamId))]
  {
    var streamId := StreamID(alice, bob, token, 0);
    var revisionId := StreamRevisionID(keccak, alice, bob, token);
    FirstFlowCreatesStream(keccak, alice, bob, token, tx1);
    var s1 := HandleFlowUpdated(keccak, EmptyStore, FlowUpdatedEvent(alice, bob, token, 1000, 100, tx1));
    assert CurrentStreamID(keccak, s1, alice, bob, token) == streamId;
    var s2 := HandleFlowUpdated(keccak, s1, FlowUpdatedEvent(alice, bob, token, 500, 200, tx2));
    assert s2.revisions[revisionId].revisionIndex == 0;
    assert s2.streams.Keys == {streamId};
    var s3 := HandleFlowUpdated(keccak, s2, FlowUpdatedEvent(alice, bob, token, 0, 300, tx3));
    assert s3.revisions[revisionId].revisionIndex == 0;
    assert s3.streams.Keys == {streamId};
  }

  /** An employee added and then deleted stays on record as TERMINATED with every other detail intact. */
  lemma EmployeeAddedThenDeleted(bob: Address, alice: Address, contact: string, country: string)
    ensures var added := HandleEmployeeAdded(EmptyStore, EmployeeAddedEvent("Bob", 30, contact, country, bob, alice, 50));
      var deleted := HandleEmployeeDeleted(added, EmployeeDeletedEvent(bob, 60));
      && deleted.employees == map[ToHex(bob) := Employee("Bob", 30, contact, country, bob, alice, EmployeeStatus.Terminated, 60)]
      && deleted.streams == map[] && deleted.revisions == map[]
  {
  }

  /** Deleting an employee that was never added changes nothing. */
  lemma DeletingUnknownEmployeeIsNoOp(bob: Address, carol: Address, contact: string, country: string)
    requires bob != carol
    ensures var added := HandleEmployeeAdded(EmptyStore, EmployeeAddedEvent("Bob", 30, contact, country, bob, carol, 50));
      HandleEmployeeDeleted(added, EmployeeDeletedEvent(carol, 60)) == added
  {
    ToHexInjective(bob, carol);
  }

  /** Every stream id the mapping writes ends in "-0.0", the float text of index 0. */
  lemma StreamIDEndsInZeroPointZero(sender: Address, receiver: Address, token: Address)
    ensures var id := StreamID(sender, receiver, token, 0);
      id[|id| - 4..] == "-0.0"
  {
    assert NumberText(0) == "0.0";
  }

  /** A first flow with rate 0 still creates its stream as CREATED, not TERMINATED. */
  lemma ZeroFirstRateIsCreated(keccak: Keccak256, alice: Address, bob: Address, token: Address, tx: Hash32)
    ensures var store := HandleFlowUpdated(keccak, EmptyStore, FlowUpdatedEvent(alice, bob, token, 0, 100, tx));
      store.streams[StreamID(alice, bob, token, 0)].status == StreamStatus.Created
  {
  }

  /** A negative rate on an existing stream is an update, not a termination. */
  lemma NegativeRateIsUpdate(keccak: Keccak256, alice: Address, bob: Address, token: Address, tx1: Hash32, tx2: Hash32)
    ensures var s1 := HandleFlowUpdated(keccak, EmptyStore, FlowUpdatedEvent(alice, bob, token, 1000, 100, tx1));
      var s2 := HandleFlowUpdated(keccak, s1, FlowUpdatedEvent(alice, bob, token, -5, 200, tx2));
      var streamId := StreamID(alice, bob, token, 0);
      && s2.streams.Keys == {streamId}
      && s2.streams[streamId].status == StreamStatus.Updated
      && s2.streams[streamId].flowRate == -5
  {
    FirstFlowCreatesStream(keccak, alice, bob, token, tx1);
  }

}
