/** The stored rows: one auction together with everything that hangs off it. */
module Records {
  import opened Basics

  datatype Status =
    | Draft | Submitted | Approved | Rejected | Scheduled | Live
    | Paused | Closed | Settled | Completed | Cancelled | Disputed

  /** What the seller enters on the listing form. A window of 0 minutes disables extensions. */
  datatype Terms = Terms(
    startingPrice: Cents, reserve: Option<Cents>, minIncrement: Cents, extensionMinutes: nat)
  {
    function Window(): int { extensionMinutes * MINUTE }
  }

  datatype BidStatus = Accepted | Invalidated(reason: string, who: User, at: Time)

  datatype Bid = Bid(bidder: User, amount: Cents, seqNo: nat, time: Time, status: BidStatus)

  datatype PaymentStatus = Pending | Paid | Failed | Refunded

  datatype Payment = Payment(
    amount: Cents, status: PaymentStatus, payMethod: string, reference: string, notes: string,
    recordedBy: Option<User>, paidAt: Option<Time>, createdAt: Time)

  datatype DisputeCategory = NonPayment | NotAsDescribed | NotDelivered | BidIrregularity | Other

  datatype DisputeOutcome = Upheld | Dismissed

  datatype DisputeStatus =
    | Open
    | UnderReview
    | Resolved(outcome: DisputeOutcome, notes: string, refunded: bool, who: User, at: Time)

  datatype Dispute = Dispute(
    raisedBy: User, category: DisputeCategory, description: string, status: DisputeStatus,
    statusBefore: Status, assignedTo: Option<User>, createdAt: Time)
  {
    predicate Active() { status.Open? || status.UnderReview? }
  }

  /** Reason texts; those composed from a fixed phrase are kept structured. */
  datatype Reason =
    | Given(text: string)
    | AutoScheduled
    | AutoActivated
    | AutoClosed
    | StartedByStaff
    | ResumedByStaff
    | EndedEarly(text: string)
    | PaymentRecorded
    | DisputeRaised(index: nat)
    | DisputeSettled(index: nat)
    | RestoredAfter(index: nat)

  datatype StatusRow = StatusRow(from: Status, to: Status, actor: Option<User>, reason: Reason)

  /** Audit rows. `Entered` stands for the six status changes that have an action of their own. */
  datatype AuditEvent =
    | Entered(to: Status, who: Option<User>, why: Reason)
    | BidPlaced(actor: User, seqNo: nat, amount: Cents)
    | BidInvalidated(actor: User, seqNo: nat, reason: string)
    | Extended(actor: User, newEnd: Time)
    | StartedEarly(actor: User, oldStart: Time, newStart: Time)
    | Rescheduled(actor: User, reason: string, oldStart: Time, newStart: Time, oldEnd: Time, newEnd: Time)
    | PausedBy(actor: User, reason: string)
    | ResumedBy(actor: User)
    | WinnerDetermined(who: Option<User>, winner: User, finalPrice: Cents)
    | PaymentPending
    | PaymentReceived(actor: User, payMethod: string, reference: string)
    | PaymentFailed(actor: User, reason: string)
    | PaymentRefunded(actor: User, reason: string)
    | DisputeCreated(actor: User, index: nat, category: DisputeCategory, reason: string)
    | DisputeResolved(actor: User, index: nat, outcome: DisputeOutcome, refunded: bool, reason: string)

  /** One auction row with its bids, payment, disputes, status log and audit rows, oldest first. */
  datatype Lot = Lot(
    seller: User, category: string, createdAt: Time,
    terms: Terms, startTime: Time, endTime: Time, status: Status,
    highest: Option<Cents>,
    winner: Option<User>, finalPrice: Option<Cents>, reserveMet: Option<bool>,
    bids: seq<Bid>, payment: Option<Payment>, disputes: seq<Dispute>,
    statusLog: seq<StatusRow>, audit: seq<AuditEvent>)

  /** Why a service call is refused. Every refusal leaves the stored rows as they were. */
  datatype Refusal =
    | NotAnAmount | TooManyDecimals | AmountTooLarge
    | NotOpen | NotABidder | NotEligible | OwnAuction | BelowMinimum(minimum: Cents)
    | ReasonRequired | NoSuchBid
    | InvalidTransition(from: Status, to: Status) | RejectionNeedsReason
    | NotLive | NotScheduled | NotPaused | EndPassed
    | CannotReschedule | NothingToChange | StartFrozen | StartNotBeforeEnd | EndNotFuture
    | StartNotFuture | OnlyExtension | CannotCancelHere
    | NotDraft | BadTerms
    | NoPayment | PaymentNotPending | PaymentNotPaid
    | DescriptionRequired | BadCategory | NotDisputable | NotAParticipant | AlreadyDisputed
    | NoSuchDispute | DisputeNotOpen | BadOutcome | NotesRequired | DisputeNotActive

  type Reply = Result<Lot, Refusal>

  /** Bidding money must be below 10^12 currency units. */
  const MAX_BID: Cents := 100_000_000_000_000

  /** What the listing form and the model's own checks let through. */
  predicate ValidTerms(t: Terms) {
    && 0 < t.startingPrice < MAX_BID
    && 0 < t.minIncrement < MAX_BID
    && (t.reserve.Some? ==> t.startingPrice <= t.reserve.value < MAX_BID)
  }

  predicate ValidListing(t: Terms, start: Time, end: Time) {
    ValidTerms(t) && start < end
  }

  /** A listing as the seller first saves it. */
  function NewListing(seller: User, category: string, createdAt: Time, terms: Terms, start: Time, end: Time): Lot {
    Lot(seller, category, createdAt, terms, start, end, Draft, None, None, None, None, [], None, [], [], [])
  }
}
