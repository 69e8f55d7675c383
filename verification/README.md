# super-payroll indexing mapping, modelled in Dafny

This project models the subgraph mapping of super-payroll (`src/super-payroll.ts`).
The mapping turns three on-chain events into writes on a key-value store:

- an employee is added;
- an employee is deleted;
- a payment flow's rate is updated.

The store holds three entity kinds: `Employee`, `Stream` (one payment-stream
revision) and `StreamRevision` (the per-(sender, receiver, token) counter that
says which stream id the next flow event addresses).

Each handler is a pure function from the store before an event to the store
after it. The store is three maps keyed by entity id. An entity's id is its key,
so it is not repeated as a record field.

Modules, leaf first:

- `Wrappers` (`wrappers.dfy`): `Option`.
- `Hex` (`hex.dfy`): bytes, 20-byte addresses, 32-byte hashes, and graph-ts's
  `toHex` ("0x" plus two lower-case digits per byte). `ParseHex` reads back exactly the
  lower-case text `toHex` writes. Their round trip proves that the hex text
  determines the bytes.
- `Decimal` (`decimal.dfy`): decimal text of integers and its parser. Also
  `NumberText`, the text of the revision index (see below).
- `Abi` (`abi.dfy`): the contract ABI encoding of the tuple (address, address).
  Each address is left-padded to a 32-byte word. A decoder and a round trip
  come with it.
- `Schema` (`schema.dfy`): the entities, the store and the three events.
- `SuperPayroll` (`super_payroll.dfy`): `FlowStatus`, `StreamID`,
  `StreamRevisionID`, `GetOrInitStreamRevision` and the three handlers.
- `Indexing` (`indexing.dfy`): events applied in delivery order (`Replay`),
  the store invariant `WellFormed`, and the consequences of the revision index
  never advancing.
- `Scenarios` (`scenarios.dfy`): worked histories of flow and employee events.

Behaviour modelled as the code has it:

- **The revision index never advances.** `getOrInitStreamRevision` starts it at
  0, and no code path increments it. So every flow event for a triple addresses
  the same stream id. A non-zero rate after a zero rate turns a `TERMINATED`
  stream back into `UPDATED` under that id. The `revisionIndex` field suggests
  that a flow restarted after termination was meant to open a new stream
  revision, but the code never does this. The model keeps the code's behaviour
  (`TerminatedStreamRevives`, `ReplayKeepsCurrentStreamID`).
- **The text of the index.** `getStreamID` takes the index as an
  AssemblyScript `number`, which is a 64-bit float. Its `toString` writes an
  integral value as its decimal digits followed by ".0". So the id of every
  stream ends in "-0.0", not "-0" (`Decimal.NumberText`).
- **keccak-256** cannot be given a faithful definition here. It is a parameter
  `keccak: Bytes -> Hash32` of every operation that derives a revision id.
  Nothing is assumed about it except its 32-byte output. So revision-id
  uniqueness is stated as an equivalence: two triples share a revision id
  exactly when their tokens match and keccak-256 collides on their encodings.
- **Address text and ABI encoding** are given their standard definitions
  rather than left abstract. `toHex` is "0x" plus lower-case digits. The
  (address, address) tuple encodes as two 32-byte words. The fixed width of
  the hex text and the absence of '-' in it are proved, not assumed.

## Model

| member | source | states |
|---|---|---|
| SuperPayroll.FlowStatus | src/super-payroll.ts:14-20 | the status is TERMINATED exactly when the rate is 0, and UPDATED exactly when it is non-zero, negatives included; it is never CREATED |
| SuperPayroll.StreamID | src/super-payroll.ts:22-37 | a stream id is three fixed-width address texts and the index text, with a '-' at positions 42, 85 and 128 |
| SuperPayroll.StreamIDParts | src/super-payroll.ts:28-36 | the sender, receiver and token texts and the index text can each be read back from a fixed slice of the id |
| SuperPayroll.StreamIDInjective | src/super-payroll.ts:22-37 | two (sender, receiver, token, index) tuples share a stream id if and only if they are equal |
| Hex.ToHexRoundTrip | src/super-payroll.ts:29-33 | the hex text of a byte string parses back to exactly that byte string |
| Hex.ToHexInjective | src/super-payroll.ts:29-33 | two byte strings have the same hex text if and only if they are equal |
| Hex.ToHex | src/super-payroll.ts:64-66 | hex text is "0x" followed by two characters per byte, and contains no '-' |
| Decimal.NumberText | src/super-payroll.ts:26-35 | the text of a revision index is its decimal text, which parses back to the index, followed by ".0"; index 0 prints as "0.0" |
| Decimal.NumberTextInjective | src/super-payroll.ts:26-35 | two revision indices print the same if and only if they are equal |
| Abi.EncodeAddressPair | src/super-payroll.ts:44-62 | the encoding of (sender, receiver) is 64 bytes: 12 zero bytes, the sender, 12 zero bytes, the receiver |
| Abi.EncodeRoundTrip | src/super-payroll.ts:44-49 | the encoding of (sender, receiver) decodes back to that pair |
| Abi.EncodeInjective | src/super-payroll.ts:58-62 | two address pairs have the same encoding if and only if they are equal |
| SuperPayroll.StreamRevisionID | src/super-payroll.ts:53-68 | a revision id is the 66-character hash text, then '-' and the token's address text |
| SuperPayroll.RevisionIDSeparatesTokens | src/super-payroll.ts:63-67 | triples with different tokens never share a revision id |
| SuperPayroll.RevisionIDCollision | src/super-payroll.ts:53-68 | two triples share a revision id if and only if their tokens match and keccak-256 gives the same hash for their encodings; distinct (sender, receiver) pairs always encode differently |
| SuperPayroll.GetOrInitStreamRevision | src/super-payroll.ts:72-89 | returns the stored revision record when one exists; otherwise returns a fresh one with both indices 0 and no stream pointer; it only reads the store |
| SuperPayroll.HandleEmployeeAdded | src/super-payroll.ts:91-102 | the Employee at the address text holds every event field, is ACTIVE and is stamped with the event time; no other employee changes; streams and revisions are untouched |
| SuperPayroll.HandleEmployeeDeleted | src/super-payroll.ts:104-111 | an unknown address leaves the store unchanged; otherwise only that employee's status (now TERMINATED) and updatedAt change |
| SuperPayroll.HandleFlowUpdated | src/super-payroll.ts:113-143 | the revision record points at the stream id built from its unchanged index. The stream there is CREATED exactly when it was absent before. A new stream takes its fields from the event, with `to` set to the receiver. An existing stream keeps its creation time, hash and addresses, and takes the status the rate gives. No other stream, revision or employee changes |
| Indexing.Replay | src/super-payroll.ts:91-143 | applying events never removes an employee, stream or revision record |
| Indexing.ApplyPreservesWellFormed | src/super-payroll.ts:91-143 | each handler keeps the invariant: employees sit at their address text; streams sit at the id built from their own address texts and index 0; `to` equals the receiver; TERMINATED means rate 0 and UPDATED means a non-zero rate; every revision has index 0 and points at a stored stream |
| Indexing.StreamsStayWellFormed | src/super-payroll.ts:125-142 | after a flow event every stream still sits at the id built from its own address texts and index 0, has `to` equal to its receiver, and has a status that agrees with its rate |
| Indexing.RevisionsStayWellFormed | src/super-payroll.ts:115-123 | after a flow event every revision record still has both indices 0 and points at a stored stream, so no pointer dangles |
| Indexing.FlowPreservesStampedBy | src/super-payroll.ts:129-140 | a flow event no earlier than every stored time keeps createdAt <= updatedAt <= the event time for every stream |
| Indexing.ReplayPreservesWellFormed | src/super-payroll.ts:91-143 | any sequence of events keeps that invariant |
| Indexing.ApplyPreservesStampedBy | src/super-payroll.ts:91-143 | an event no earlier than every stored timestamp keeps createdAt <= updatedAt <= the event time |
| Indexing.ReplayPreservesStampedBy | src/super-payroll.ts:129-140 | with block timestamps in delivery order, every stream keeps createdAt <= updatedAt |
| Indexing.ReplayFromEmptyStore | src/super-payroll.ts:91-143 | any events from the empty store, in block order, build a well-formed store in which every stream has createdAt <= updatedAt |
| Indexing.CurrentStreamIDIsIndexZero | src/super-payroll.ts:113-120 | in a well-formed store, every triple's flow events address the stream at index 0 |
| Indexing.ApplyKeepsCurrentStreamID | src/super-payroll.ts:115-123 | no single event changes the stream id any triple's flow events address |
| Indexing.ReplayKeepsCurrentStreamID | src/super-payroll.ts:115-123 | no sequence of events changes the stream id a triple's flow events address |
| Indexing.TerminatedStreamRevives | src/super-payroll.ts:113-143 | a zero rate leaves an existing stream TERMINATED; a later non-zero rate makes the same record UPDATED under the same id, with its creation time kept and no new stream |
| Indexing.EmployeeAddedIdempotent | src/super-payroll.ts:91-102 | applying the same employee-added event twice gives the same store as applying it once |
| Indexing.EmployeeAndFlowEventsCommute | src/super-payroll.ts:91-143 | an employee event and a flow event give the same store in either order |
| Scenarios.FirstFlowCreatesStream | src/super-payroll.ts:113-143 | on an empty store the first flow creates exactly one CREATED stream at index 0, with createdAt = updatedAt, and one revision record pointing at it |
| Scenarios.FlowHistoryStaysOnOneStream | src/super-payroll.ts:113-143 | rates 1000, 500, 0, 1000 move the one stream CREATED, UPDATED, TERMINATED, UPDATED, keeping its creation time and hash |
| Scenarios.StreamIDEndsInZeroPointZero | src/super-payroll.ts:22-37 | every stream id the mapping writes (index 0) ends in "-0.0" |
| Scenarios.ZeroFirstRateIsCreated | src/super-payroll.ts:125-139 | a first flow with rate 0 creates its stream as CREATED, not TERMINATED |
| Scenarios.NegativeRateIsUpdate | src/super-payroll.ts:14-20 | a negative rate on an existing stream makes it UPDATED with that rate, on the same single stream |
| Scenarios.EmployeeAddedThenDeleted | src/super-payroll.ts:91-111 | an added then deleted employee is TERMINATED with the deletion time and all other details from the addition |
| Scenarios.DeletingUnknownEmployeeIsNoOp | src/super-payroll.ts:104-111 | deleting an address that was never added leaves the store as it was |

## Left out

- keccak-256 (`crypto.keccak256`) is a parameter of the model, not a definition. It comes from graph-ts and is not part of this model.
- Host runtime: event delivery order, the atomicity of one event's writes, and rollback on chain reorganisation. The host guarantees these and the mapping does not implement them. `Replay` applies events one at a time in the order given. Block-time ordering is a precondition of `ReplayPreservesStampedBy` only.
- The generated event and entity classes: the model uses plain datatypes holding the fields the handlers read and write.
- The dashboard (`client/src/App.jsx`): the UI, wallet connection, GraphQL queries, the payments-SDK calls, and the floating-point flow-rate conversions (`calculateFlowRateInTokenPerMonth`, `calculateFlowRateInWeiPerSecond`). None of this is part of the mapping.
- `hardhat.config.js`: deployment and network configuration.
- Decimal.NumberText: covers only 32-bit integral values. That is the width of the stored `revisionIndex`, and such values never hit the float exponent format.
