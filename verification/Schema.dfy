/**
 The database rows the services share, and the errors they raise. Times are microseconds on the UTC time line,
 money and quantities are exact numbers, and a nullable column is an `Option`.
 */
module Schema {
  import opened Prelude

  datatype Trigger = ManagerRequest | EventTrigger | Scheduled

  /** The request-scoped identifiers a tool call carries. */
  datatype Context = Context(agent: string, agentRun: Option<Id>, trigger: Trigger)

  datatype Settings = Settings(
    highImpactParty: int,
    defaultDuration: int,
    highImpactCost: real,
    executors: set<Domain>)

  datatype Error =
    | CustomerNotFound | InvalidTime | TableNotFound | TableTooSmall | TableConflict | NoAvailability
    | ReservationNotFound | ReservationNotModifiable | ReservationNotCancellable
    | AgentRunRequired | ItemNotFound | UnsupportedAction | PurchaseRequestNotFound
    | ApprovalNotFound | ApprovalHasExpired | ApprovalAlreadyDecided | LowRiskNeedsNoApproval
    | MemoryNotFound | MemoryInactive | InvalidImportance | InvalidConfidence
    | EmbeddingFailed | Unexpected | ConstraintViolation

  datatype Table = Table(restaurant: Id, capacity: int, active: bool)
  datatype Customer = Customer(restaurant: Id)
  datatype Item = Item(restaurant: Id)

  datatype ReservationStatus = Requested | Booked | Modified | Cancelled | Completed | NoShow

  datatype Reservation = Reservation(
    restaurant: Id, customer: Id, table: Option<Id>, party: int, time: int, duration: int,
    status: ReservationStatus, notes: Option<string>, createdVia: Trigger)

  /** The optional entries of an approval's `changes` object. */
  datatype Changes = Changes(party: Option<int>, time: Option<int>, table: Option<Id>, notes: Option<string>)

  datatype PurchaseStatus =
    Draft | PendingApproval | PurchaseApproved | PurchaseRejected | Fulfilled | PurchaseCancelled

  datatype Purchase = Purchase(
    restaurant: Id, item: Id, quantity: real, cost: Option<real>,
    status: PurchaseStatus, approval: Option<Id>, agentRun: Option<Id>)

  datatype Domain = ReservationDomain | InventoryDomain | StaffingDomain | PurchaseDomain
  datatype Risk = Low | Medium | High

  /** What an approval will execute: the action named in its JSON parameters together with its arguments. */
  datatype Parameters =
    | CancelReservation(reservation: Id, reason: Option<string>)
    | ModifyReservation(reservation: Id, changes: Changes)
    | ApprovePurchase(purchase: Id)

  datatype ApprovalStatus = Pending | Approved | Rejected | Expired
  datatype Execution = Succeeded | Failed(error: Error)

  datatype Approval = Approval(
    restaurant: Id, domain: Domain, agent: string, agentRun: Id, parameters: Parameters, risk: Risk,
    status: ApprovalStatus, decidedBy: Option<Id>, approvedAt: Option<int>, rejectedAt: Option<int>,
    expiresAt: Option<int>, execution: Option<Execution>, executedAt: Option<int>)

  datatype MemoryType =
    CustomerPreference | BusinessRule | ManagerPreference | PastDecision | OperationalFact | AgentExperience
  datatype MemorySource = ManagerStated | AgentInferred | SystemDerived

  datatype Memory = Memory(
    restaurant: Id, customer: Option<Id>, agent: Option<string>, kind: MemoryType, topic: string,
    content: string, importance: int, confidence: real, source: MemorySource,
    active: bool, accessCount: nat)

  datatype EventType =
    | ReservationCreated | ReservationModified | ReservationCancelled
    | PurchaseRequestedEvent | PurchaseApprovedEvent | PurchaseRejectedEvent
    | ApprovalCreated | ApprovalCompleted

  datatype Event = Event(kind: EventType, restaurant: Id, entity: Id)

  /** One state of the database. */
  datatype Db = Db(
    tables: map<Id, Table>, customers: map<Id, Customer>, items: map<Id, Item>,
    reservations: map<Id, Reservation>, purchases: map<Id, Purchase>, approvals: map<Id, Approval>,
    memories: map<Id, Memory>, events: seq<Event>, nextId: Id)

  /** Where an executor raises, apart from its own refusals: before it writes, after writing but before publishing, or
      after publishing, when event handlers may have left the session in any state. */
  datatype Fault = BeforeWrites | AfterWrites | AfterPublishing(left: Db)

  /** Where storing a memory raises: the text cannot be embedded, or the database refuses the new row. */
  datatype MemoryFault = EmbeddingFails | StoreFails

  /** What a successful service call hands back. */
  datatype Response =
    | ReservationBooked(reservation: Id)
    | ReservationChanged(reservation: Id)
    | AwaitingApproval(approval: Id)
    | PurchaseFiled(purchase: Id)
    | ApprovalDecided(approval: Id)
    | ApprovalsExpired(approvals: set<Id>)
    | MemoryServed

  /** The state a service call leaves and what it returns or raises. */
  datatype Outcome = Outcome(db: Db, response: Result<Response, Error>)
}
