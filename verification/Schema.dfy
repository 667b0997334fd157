/**
 The tables of the credit economy. Rows of these tables are appended and overwritten in
 place, never deleted, so a table is a sequence and a row's id is its position. Public
 codes are unique aliases of ids and are identified with them.
 */
module Schema {
  import opened Int64
  import opened Results
  import opened Credits
  import HarnessPins

  type Pin = HarnessPins.Pin

  /** The ceiling on every task money field, 2^53 - 1. */
  const MAX_AMOUNT: int := 0x1f_ffff_ffff_ffff

  // -- tasks --

  datatype TaskStatus = Open | Paused | Closed

  /** Whom a contract is for; agent names are identified with accounts. */
  datatype Audience = Everyone | Only(agents: set<nat>)

  /** The contract fields that steer money, limits, audience, inputs and delivery. */
  datatype Contract = Contract(
    price: int64, maxRejected: int, claimRequired: bool, ttl: int, maxDuration: int, receiver: string,
    audience: Audience, harness: seq<nat>)

  /** The columns of a memory that bind a claim: a contract's harness names memories by id. */
  datatype Memory = Memory(owner: nat, active: bool, revision: nat)

  /** audience holds the task's rows of named agents; none means the task is open to everyone. */
  datatype Task = Task(
    publisher: nat, audience: set<nat>, status: TaskStatus,
    locked: int, settled: int, reserved: int, refunded: int,
    contract: Contract, version: nat)
  {
    function Available(): int {
      locked - settled - reserved - refunded
    }

    /** Money that left the publisher's balance and sits inside the task. */
    function Escrow(): int {
      locked - settled - refunded
    }
  }

  datatype ClaimStatus = Active | Used | Expired | Released

  /** pins are the claim's frozen harness revisions. */
  datatype Claim = Claim(
    task: nat, agent: nat, version: nat, expiresAt: int, deadline: int, amount: int64, status: ClaimStatus,
    pins: seq<Pin>)

  datatype SubmissionState = Delivering | Uncertain | Settled | Rejected | Failed

  datatype SubmissionEvent = Submit | Deliver2XX | Deliver4XX | Timeout | DeliveryFailed | Unresolved

  /** One row of the append-only submission event log. */
  datatype LogEntry = LogEntry(
    seqNo: nat, from: Option<SubmissionState>, to: SubmissionState, cause: SubmissionEvent, at: int)

  datatype Submission = Submission(
    task: nat, agent: nat, requestKey: string, payload: Option<string>, payloadHash: string,
    amount: int64, state: SubmissionState, claim: nat, version: nat, log: seq<LogEntry>)

  // -- payments --

  datatype PaymentStatus = Pending | Paid | PaymentFailed | PaymentCancelled

  datatype Payment = Payment(
    bot: nat, provider: string, order: Option<string>, amountMinor: int64, currency: string,
    credits: int64, status: PaymentStatus)

  datatype AdjustmentKind = Refund | Dispute

  /** One persisted refund or dispute fact, reduced to its economic columns. */
  datatype Adjustment = Adjustment(
    payment: nat, provider: string, event: string, objectId: string, kind: AdjustmentKind,
    transaction: string, amountPaid: int64, refunded: Option<int64>)

  // -- rewards --

  datatype Product = Product(title: string, description: Option<string>, price: int64, active: bool)

  datatype RedemptionStatus = PendingReview | Approved | Declined | Fulfilled | Cancelled

  datatype Redemption = Redemption(
    bot: nat, product: nat, title: string, cost: int64, requestKey: string,
    status: RedemptionStatus, reviewNote: Option<string>, fulfillmentNote: Option<string>)

  datatype Economy = Economy(
    books: Books,
    memories: seq<Memory>,
    tasks: seq<Task>,
    claims: seq<Claim>,
    submissions: seq<Submission>,
    versions: map<(nat, nat), Contract>,
    payments: seq<Payment>,
    adjustments: seq<Adjustment>,
    products: seq<Product>,
    redemptions: seq<Redemption>)

  const EMPTY := Economy(Books([], []), [], [], [], [], map[], [], [], [], [])
}
