/**
  The event-indexing mapping: stream and revision id derivation, the status
  rule, the get-or-init revision accessor and the three event handlers. Each
  handler is a function from the store before the event to the store after it.
 */
module SuperPayroll {
  import opened Wrappers
  import opened Hex
  import opened Decimal
  import opened Abi
  import opened Schema

  /**
    graph-ts's `crypto.keccak256`. Its internals are outside the model, so
    every operation that needs it receives it as a parameter.
   */
  type Keccak256 = Bytes -> Hash32

  /** Length of the hex text of an address: "0x" and 40 digits. */
  const AddressHexLength := 42

  /** Length of one address text and the '-' after it in a stream id. */
  const FieldWidth := AddressHexLength + 1

  /** Length of the hex text of a 32-byte hash: "0x" and 64 digits. */
  const HashHexLength := 66

  /**
    Status of a stream that already exists, from its new flow rate: a zero rate
    ends it; any other rate, negative included, is an update. The rule never
    yields CREATED.
   */
  function FlowStatus(flowRate: int): (status: StreamStatus)
    ensures status == StreamStatus.Terminated <==> flowRate == 0
    ensures status == StreamStatus.Updated <==> flowRate != 0
  {
    if flowRate == 0 then StreamStatus.Terminated else StreamStatus.Updated
  }

  /** Stream id: the three address texts and the index text, joined by '-'. */
  function StreamID(sender: Address, receiver: Address, token: Address, revisionIndex: Int32): (id: string)
    ensures |id| == 3 * FieldWidth + |NumberText(revisionIndex)|
    ensures id[AddressHexLength] == '-' && id[FieldWidth + AddressHexLength] == '-'
    ensures id[2 * FieldWidth + AddressHexLength] == '-'
  {
    ToHex(sender) + "-" + ToHex(receiver) + "-" + ToHex(token) + "-" + NumberText(revisionIndex)
  }

  /** Each part of a stream id sits at a fixed position. */
  lemma StreamIDParts(sender: Address, receiver: Address, token: Address, revisionIndex: Int32)
    ensures var id := StreamID(sender, receiver, token, revisionIndex);
      && id[..AddressHexLength] == ToHex(sender)
      && id[FieldWidth..FieldWidth + AddressHexLength] == ToHex(receiver)
      && id[2 * FieldWidth..2 * FieldWidth + AddressHexLength] == ToHex(token)
      && id[3 * FieldWidth..] == NumberText(revisionIndex)
  {
    assert AddressHexLength == 42 && FieldWidth == 43;
    var p1 := ToHex(sender) + "-";
    var p2 := p1 + ToHex(receiver) + "-";
    var p3 := p2 + ToHex(token) + "-";
    var id := p3 + NumberText(revisionIndex);
    assert |p1| == FieldWidth && |p2| == 2 * FieldWidth && |p3| == 3 * FieldWidth;
    assert id[..|p3|] == p3 && id[|p3|..] == NumberText(revisionIndex);
    assert p3[..|p2|] == p2 && p2[..|p1|] == p1;
    assert id[..AddressHexLength] == p1[..AddressHexLength];
    assert id[FieldWidth..FieldWidth + AddressHexLength] == p2[|p1|..|p1| + AddressHexLength];
    assert id[2 * FieldWidth..2 * FieldWidth + AddressHexLength] == p3[|p2|..|p2| + AddressHexLength];
  }

  /** Distinct (sender, receiver, token, index) tuples never share a stream id. */
  lemma StreamIDInjective(
    sender: Address, receiver: Address, token: Address, revisionIndex: Int32,
    sender': Address, receiver': Address, token': Address, revisionIndex': Int32)
    ensures StreamID(sender, receiver, token, revisionIndex) == StreamID(sender', receiver', token', revisionIndex')
        <==> sender == sender' && receiver == receiver' && token == token' && revisionIndex == revisionIndex'
  {
    if StreamID(sender, receiver, token, revisionIndex) == StreamID(sender', receiver', token', revisionIndex') {
      StreamIDParts(sender, receiver, token, revisionIndex);
      StreamIDParts(sender', receiver', token', revisionIndex');
      ToHexInjective(sender, sender');
      ToHexInjective(receiver, receiver');
      ToHexInjective(token, token');
      NumberTextInjective(revisionIndex, revisionIndex');
    }
  }

  /**
    Revision id: the hex text of keccak-256 over the ABI encoding of
    (sender, receiver), then '-' and the token's hex text.
   */
  function StreamRevisionID(keccak: Keccak256, sender: Address, receiver: Address, token: Address): (id: string)
    ensures |id| == HashHexLength + 1 + AddressHexLength
    ensures id[..HashHexLength] == ToHex(keccak(EncodeAddressPair(sender, receiver)))
    ensures id[HashHexLength..] == "-" + ToHex(token)
  {
    ToHex(keccak(EncodeAddressPair(sender, receiver))) + "-" + ToHex(token)
  }

  /** Two triples with different tokens never share a revision id. */
  lemma RevisionIDSeparatesTokens(
    keccak: Keccak256, sender: Address, receiver: Address, token: Address,
    sender': Address, receiver': Address, token': Address)
    requires token != token'
    ensures StreamRevisionID(keccak, sender, receiver, token) != StreamRevisionID(keccak, sender', receiver', token')
  {
    ToHexInjective(token, token');
    var id, id' := StreamRevisionID(keccak, sender, receiver, token), StreamRevisionID(keccak, sender', receiver', token');
    assert id[HashHexLength + 1..] == ToHex(token);
    assert id'[HashHexLength + 1..] == ToHex(token');
  }

  /**
    Two triples share a revision id exactly when their tokens agree and keccak
    maps their (sender, receiver) encodings to the same hash; since distinct
    pairs encode differently, distinct triples collide only through a
    keccak-256 collision.
   */
  lemma RevisionIDCollision(
    keccak: Keccak256, sender: Address, receiver: Address, token: Address,
    sender': Address, receiver': Address, token': Address)
    ensures StreamRevisionID(keccak, sender, receiver, token) == StreamRevisionID(keccak, sender', receiver', token')
        <==> token == token' && keccak(EncodeAddressPair(sender, receiver)) == keccak(EncodeAddressPair(sender', receiver'))
    ensures (sender, receiver) != (sender', receiver') ==> EncodeAddressPair(sender, receiver) != EncodeAddressPair(sender', receiver')
  {
    var h, h' := keccak(EncodeAddressPair(sender, receiver)), keccak(EncodeAddressPair(sender', receiver'));
    ToHexInjective(h, h');
    if token != token' {
      RevisionIDSeparatesTokens(keccak, sender, receiver, token, sender', receiver', token');
    } else if StreamRevisionID(keccak, sender, receiver, token) == StreamRevisionID(keccak, sender', receiver', token') {
      assert ToHex(h) == ToHex(h');
    }
    EncodeInjective(sender, receiver, sender', receiver');
  }

  /**
    The revision record for a triple: the stored one if there is one, else a
    fresh record with both indices 0 and no stream pointer. Only reads the store.
   */
  function GetOrInitStreamRevision(keccak: Keccak256, store: Store, sender: Address, receiver: Address, token: Address): (revision: StreamRevision)
    ensures var id := StreamRevisionID(keccak, sender, receiver, token);
      && (id in store.revisions ==> revision == store.revisions[id])
      && (id !in store.revisions ==>
            revision.revisionIndex == 0 && revision.periodRevisionIndex == 0 && revision.mostRecentStream.None?)
  {
    var id := StreamRevisionID(keccak, sender, receiver, token);
    if id in store.revisions then store.revisions[id] else StreamRevision(0, 0, None)
  }

  /** The stream id a flow event for this triple addresses in this store. */
  function CurrentStreamID(keccak: Keccak256, store: Store, sender: Address, receiver: Address, token: Address): string
  {
    StreamID(sender, receiver, token, GetOrInitStreamRevision(keccak, store, sender, receiver, token).revisionIndex)
  }

  /**
    Writes the Employee at the hex text of its address, replacing any earlier
    record there, as ACTIVE and stamped with the event time.
   */
  function HandleEmployeeAdded(store: Store, e: EmployeeAddedEvent): (store': Store)
    ensures store'.streams == store.streams && store'.revisions == store.revisions
    ensures store'.employees.Keys == store.employees.Keys + {ToHex(e.addr)}
    ensures forall id :: id in store.employees && id != ToHex(e.addr) ==> store'.employees[id] == store.employees[id]
    ensures var employee := store'.employees[ToHex(e.addr)];
      && employee.name == e.name && employee.age == e.age
      && employee.contactAddress == e.contactAddress && employee.country == e.country
      && employee.addr == e.addr && employee.employer == e.employer
      && employee.status == EmployeeStatus.Active && employee.updatedAt == e.timestamp
  {
    var employee := Employee(e.name, e.age, e.contactAddress, e.country, e.addr, e.employer, EmployeeStatus.Active, e.timestamp);
    store.(employees := store.employees[ToHex(e.addr) := employee])
  }

  /**
    Marks the Employee at the hex text of the address TERMINATED and stamps
    it; an unknown address leaves the store as it was.
   */
  function HandleEmployeeDeleted(store: Store, e: EmployeeDeletedEvent): (store': Store)
    ensures ToHex(e.addr) !in store.employees ==> store' == store
    ensures store'.streams == store.streams && store'.revisions == store.revisions
    ensures store'.employees.Keys == store.employees.Keys
    ensures forall id :: id in store.employees && id != ToHex(e.addr) ==> store'.employees[id] == store.employees[id]
    ensures ToHex(e.addr) in store.employees ==>
      var before, after := store.employees[ToHex(e.addr)], store'.employees[ToHex(e.addr)];
      && after.status == EmployeeStatus.Terminated && after.updatedAt == e.timestamp
      && after.name == before.name && after.age == before.age
      && after.contactAddress == before.contactAddress && after.country == before.country
      && after.addr == before.addr && after.employer == before.employer
  {
    var id := ToHex(e.addr);
    if id in store.employees then
      var employee := store.employees[id].(status := EmployeeStatus.Terminated, updatedAt := e.timestamp);
      store.(employees := store.employees[id := employee])
    else
      store
  }

  /**
    Points the triple's revision record at the stream id derived from its
    current index and saves it; then creates that stream as CREATED if it is
    absent, or else sets its status from the new rate; either way records
    the rate and the event time.
   */
  function HandleFlowUpdated(keccak: Keccak256, store: Store, e: FlowUpdatedEvent): (store': Store)
    ensures store'.employees == store.employees
    ensures var revisionId := StreamRevisionID(keccak, e.sender, e.receiver, e.token);
      var revision := GetOrInitStreamRevision(keccak, store, e.sender, e.receiver, e.token);
      var streamId := StreamID(e.sender, e.receiver, e.token, revision.revisionIndex);
      && store'.revisions.Keys == store.revisions.Keys + {revisionId}
      && (forall id :: id in store.revisions && id != revisionId ==> store'.revisions[id] == store.revisions[id])
      && store'.revisions[revisionId].revisionIndex == revision.revisionIndex
      && store'.revisions[revisionId].periodRevisionIndex == revision.periodRevisionIndex
      && store'.revisions[revisionId].mostRecentStream == Some(streamId)
      && store'.streams.Keys == store.streams.Keys + {streamId}
      && (forall id :: id in store.streams && id != streamId ==> store'.streams[id] == store.streams[id])
      && store'.streams[streamId].flowRate == e.flowRate
      && store'.streams[streamId].updatedAt == e.timestamp
      && (store'.streams[streamId].status == StreamStatus.Created <==> streamId !in store.streams)
      && (streamId !in store.streams ==>
            var s := store'.streams[streamId];
            && s.sender == ToHex(e.sender) && s.receiver == ToHex(e.receiver)
            && s.to == ToHex(e.receiver) && s.token == ToHex(e.token)
            && s.createdAt == e.timestamp && s.txHash == ToHex(e.txHash))
      && (streamId in store.streams ==>
            var before, after := store.streams[streamId], store'.streams[streamId];
            && after.status == FlowStatus(e.flowRate)
            && after.sender == before.sender && after.receiver == before.receiver
            && after.to == before.to && after.token == before.token
            && after.createdAt == before.createdAt && after.txHash == before.txHash)
  {
    var revisionId := StreamRevisionID(keccak, e.sender, e.receiver, e.token);
    var revision := GetOrInitStreamRevision(keccak, store, e.sender, e.receiver, e.token);
    var streamId := StreamID(e.sender, e.receiver, e.token, revision.revisionIndex);
    var revisions := store.revisions[revisionId := revision.(mostRecentStream := Some(streamId))];
    var stream :=
      if streamId in store.streams then
        store.streams[streamId].(status := FlowStatus(e.flowRate), updatedAt := e.timestamp, flowRate := e.flowRate)
      else
        Stream(ToHex(e.sender), ToHex(e.receiver), ToHex(e.receiver), ToHex(e.token),
               StreamStatus.Created, e.flowRate, e.timestamp, e.timestamp, ToHex(e.txHash));
    store.(revisions := revisions, streams := store.streams[streamId := stream])
  }

}
