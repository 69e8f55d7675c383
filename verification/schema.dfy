/**
  The three entity kinds the mapping writes, the store that holds them, and the
  three decoded events the host delivers. An entity's `id` is its key in the
  store: loading by id and saving under the entity's own id coincide.
 */
module Schema {
  import opened Wrappers
  import opened Hex
  import opened Decimal

  datatype EmployeeStatus = Active | Terminated
  {
    /** The status text stored on the entity. */
    function Text(): string
    {
      match this
      case Active => "ACTIVE"
      case Terminated => "TERMINATED"
    }
  }

  datatype StreamStatus = Created | Updated | Terminated
  {
    /** The status text stored on the entity. */
    function Text(): string
    {
      match this
      case Created => "CREATED"
      case Updated => "UPDATED"
      case Terminated => "TERMINATED"
    }
  }

  /** One payroll entrant; its id is the hex text of `addr`. */
  datatype Employee = Employee(
    name: string,
    age: Byte,
    contactAddress: string,
    country: string,
    addr: Address,
    employer: Address,
    status: EmployeeStatus,
    updatedAt: nat)

  /**
    One payment-stream revision. `sender`, `receiver`, `to` and `token` are hex
    text; `to` refers to the receiving Employee by id. `flowRate` is signed.
   */
  datatype Stream = Stream(
    sender: string,
    receiver: string,
    to: string,
    token: string,
    status: StreamStatus,
    flowRate: int,
    createdAt: nat,
    updatedAt: nat,
    txHash: string)

  /**
    The per-(sender, receiver, token) revision counter. `mostRecentStream` is
    None only on a record built but not yet saved.
   */
  datatype StreamRevision = StreamRevision(
    revisionIndex: Int32,
    periodRevisionIndex: Int32,
    mostRecentStream: Option<string>)

  /** The key-value store: one map per entity kind, keyed by id. */
  datatype Store = Store(
    employees: map<string, Employee>,
    streams: map<string, Stream>,
    revisions: map<string, StreamRevision>)

  const EmptyStore := Store(map[], map[], map[])

  /** Event parameters plus the block timestamp they arrived in. */
  datatype EmployeeAddedEvent = EmployeeAddedEvent(
    name: string,
    age: Byte,
    contactAddress: string,
    country: string,
    addr: Address,
    employer: Address,
    timestamp: nat)

  datatype EmployeeDeletedEvent = EmployeeDeletedEvent(addr: Address, timestamp: nat)

  /** Event parameters, the block timestamp and the transaction hash. */
  datatype FlowUpdatedEvent = FlowUpdatedEvent(
    sender: Address,
    receiver: Address,
    token: Address,
    flowRate: int,
    timestamp: nat,
    txHash: Hash32)

  datatype Event =
    | EmployeeAdded(added: EmployeeAddedEvent)
    | EmployeeDeleted(deleted: EmployeeDeletedEvent)
    | FlowUpdated(flow: FlowUpdatedEvent)

}
