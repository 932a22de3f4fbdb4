# Auction engine

A Dafny model of the service layer of an online auction platform: one auction's life with its bids,
schedule, payment and disputes, many auctions under one roof, and the views derived from them.

* A **lot** (`Records.dfy`) is one auction row with everything that hangs off it: bids, payment, disputes,
  status log and audit rows. Time is in microseconds, money in cents. A bidder profile or seller profile
  is identified with its user, and a bid or dispute is addressed by its position in its auction's list.
* **Services** are functions from a lot to a lot or a refusal (`Lifecycle.dfy`, `Bidding.dfy`,
  `Scheduling.dfy`, `Settlement.dfy`, with amounts in `Amounts.dfy`). `Auctions.dfy` has the same services
  as they run: an object whose fields are assigned one after another, each method proved to do what its
  function says, to change nothing when it refuses, and to leave an object that is reachable, so that all
  laws below hold of it.
* **Runs** (`Engine.dfy`) are sequences of calls on a clock that never runs backwards, starting from a new
  listing. A lot is reachable if some run leads to it. `Invariants.dfy` proves the invariant of every
  reachable lot, `Histories.dfy` what no continuation can undo.
* **Laws** over all reachable lots and runs: `BidLaws.dfy` (cache, leader, spacing, window, extensions,
  closing), `Pages.dfy` (what the page offers and what the service accepts), `ScheduleLaws.dfy` (status log,
  approval and staff controls), `SettlementLaws.dfy` (payments and disputes), `Replay.dfy` (the audit log
  rebuilds the rows), `BidHistory.dfy` (labels and recipients). `Outcomes.dfy` tells what each call writes,
  logs and refuses in terms of the columns alone. `Examples.dfy` has the small runs that
  witness what can go wrong.
* **Many auctions**: `Houses.dfy` and `Sweeping.dfy` (the sweep and the two management commands),
  `Reports.dfy` (partitions, date ranges, conservation of money, and how the report follows the services).
* **Concurrency**: `Locking.dfy` splits the calls that take the row lock into single writes,
  `Interleaving.dfy` runs any number of them in any interleaving, with crashes, and proves that the result
  is that of running them one at a time in the order in which they took the lock, however old the objects
  are that their callers passed in, that none is lost unless it crashed, and that none is ever stuck.

Who may bid, the moment of each call, and every other input are parameters of the calls and may change
from call to call. Terms are taken to be valid as the listing form and the model's checks demand.

Where code and documentation part, the model follows the code:

* `apps/disputes/models.py:8-17` says a resolved dispute without refund returns the auction to SETTLED if
  it had been paid. The code looks at the status before the dispute instead, so a payment recorded while
  the dispute is active leaves the auction CLOSED and paid for good. `SettledIffPaidIsExact` says exactly
  when the promise is kept, `PaidDuringDisputeHappens` exhibits a run where it is not,
  `PaidDuringDisputeNeverSettles` proves the consequence of every such run, and `CanStillSettleIsExact`
  tells which finished auctions can still become settled.
* `apps/auctions/services.py:97-102` promises that no approved auction is left waiting to be pushed on. The
  two transitions are committed one by one, and if the process stops in between the auction rests APPROVED
  (`RestsApprovedIffStopped`) and no service call can ever move it (`ApprovedStays`).
* `apps/payments/services.py:1-7` promises that every change of a payment is accounted for. A failed payment
  and its audit row are committed one by one as well, and `AuditLogRebuildsTheLot` holds exactly when no
  such row was lost.
* `apps/bidding/models.py:8-13` allows one change of a recorded bid, its invalidation. The code lets a bid be
  invalidated again and overwrites the record (`SecondInvalidationOverwrites`); `RecordStaysIffNotRepeated`
  and `BidsChangeOnlyByInvalidation` give the exact rule.
* `apps/auctions/views.py:59-65` and the bidding service do not always agree on who can bid:
  `PageAgreesWithService` gives the exact condition, and `OfficerIsAcceptedWithoutBox` and
  `BoxWithoutAcceptableAmount` the two ways in which they part.
* `apps/bidding/services.py:44-45` speaks of two decimal places but tests the exponent, so 100.000 is
  refused (`TrailingZeroIsRefused`); `ToCentsIsExact` gives the exact condition.
* `apps/bidding/services.py:136-141` describes closing as something only a scheduled task does after the
  end; the function itself closes any live auction at any time, and so does the model.

## Model

| member | source | states |
|---|---|---|
| Amounts.ToCentsIsExact | apps/bidding/services.py:34-48 | an amount passes the check iff its notation has at most two decimals and its value is below 10^12, and what comes out is that value in cents with nothing rounded |
| Amounts.TwoDecimalsRoundTrip | apps/bidding/services.py:34-48 | every whole number of cents, written with two decimals, comes back unchanged or is refused as too large |
| Amounts.TrailingZeroIsRefused | apps/bidding/services.py:44-45 | the check is on the notation: 100.000 is refused although it equals 100.00, which is accepted |
| Lifecycle.PathIsChained | apps/auctions/services.py:18-31 | a log accepted as a path starts at DRAFT, each row starts where the one before ended, and every row is an edge of the table |
| Lifecycle.ClosesAtMostOnce | apps/auctions/services.py:18-31 | on any path of service edges there is exactly one LIVE to CLOSED row once a finished status is reached, and none before |
| Bidding.ClosingLeader | apps/bidding/services.py:147 | the query picks an accepted bid that no accepted bid precedes in the order highest amount, earliest number; nothing iff none is accepted |
| Bidding.OutbidLeader | apps/notifications/services.py:82-87 | the same for the order highest amount, latest number, leaving out one bid |
| Bidding.HighestSeqNo | apps/bidding/services.py:78 | the largest sequence number on record, 0 for an empty list |
| Invariants.CreatePendingPaymentIsIdle | apps/payments/services.py:17-34 | calling the payment creation again never creates or changes anything |
| Invariants.StepKeeps | apps/auctions/services.py:1-6 | every service call, accepted or refused, keeps the invariant |
| Invariants.RunKeeps | apps/auctions/services.py:1-6 | so does every run of calls on a clock that never runs backwards |
| Invariants.ReachableInv | apps/auctions/services.py:1-6 | every lot that calls can lead to from a new listing satisfies the invariant |
| Histories.RunEvolves | apps/bidding/models.py:7-14 | over any continuation of a reachable auction bids only change status and never back to accepted, logs and disputes only grow, payments move forward only; terms, start, result and end are frozen by the status reached |
| Histories.BidsChangeOnlyByInvalidation | apps/bidding/services.py:119-123 | over any run a recorded bid is what it was, with the record of the last accepted invalidation of it, which overwrites any before |
| Histories.RecordStaysIffNotRepeated | apps/bidding/services.py:114-123 | what is on record of a bid stays throughout a run iff every accepted invalidation of it writes the same again, and, seen from any moment after an invalidation, iff no further one is accepted |
| Histories.SecondInvalidationOverwrites | apps/bidding/services.py:114-123 | a reachable auction where a second invalidation is accepted and overwrites the first |
| BidLaws.SpacedLeadersAgree | apps/bidding/services.py:147 | on a list rising by the increment the closing query, the outbid query and the last accepted bid are the same bid |
| BidLaws.SpacedClimb | apps/bidding/services.py:72-76 | the leader stands at least one increment above the floor for each accepted bid below it |
| BidLaws.CacheAgreesWithBids | apps/bidding/services.py:72-87 | in every reachable state the cache is empty iff no bid is accepted and otherwise the maximum accepted amount |
| BidLaws.LeadersAgree | apps/bidding/services.py:147-161 | in every reachable state all three computations of the leader agree, with the cache, and no two accepted bids tie |
| BidLaws.IncrementSpacing | apps/bidding/services.py:72-76 | accepted bids rise by the increment, every recorded bid is at least the starting price, and the cache has climbed one increment per accepted bid, after any invalidations and re-bids |
| BidLaws.AcceptedBidsAreBounded | apps/bidding/services.py:34-48 | (accepted - 1) * increment stays below the limit minus the starting price, which bounds the number of accepted bids |
| BidLaws.AcceptedAreCounted | apps/bidding/services.py:125 | the count of accepted bids used in these bounds is the number of accepted rows |
| BidLaws.BidsStayInTheWindow | apps/bidding/services.py:58-61 | the checks of every recorded bid were made in the window as it now stands; the bid is not the seller's and its number is its position |
| BidLaws.StoredTimeStaysIff | apps/bidding/models.py:36 | the timestamp a bid row gets when it is stored stays in the window in every continuation iff it falls before the end found, or, with extensions on, before a full window from the checks has passed if that is later |
| BidLaws.StoredAtTheEnd | apps/bidding/services.py:58-85 | a reachable auction where an accepted bid is stored when the end has been reached |
| BidLaws.OutbidGoesToThePreviousLeader | apps/notifications/services.py:77-97 | the outbid notice goes exactly to the leader before the bid, or to nobody if there was none or it is the same bidder |
| BidLaws.ExtensionLeavesAWindow | apps/bidding/services.py:91-98 | with extensions on an accepted bid leaves at least a full window, moving the end only if less was left; with them off the end stays |
| Pages.OfferedMinimumIsExact | apps/auctions/views.py:53-65 | for every user and amount the service accepts iff bidding is open to the user and the amount, as the number it denotes, lies from the displayed minimum up to 10^12 with at most two decimals; recorded is that number exactly |
| Pages.SomeBidIsAccepted | apps/bidding/services.py:37-76 | some amount is accepted iff bidding is open to the user and the displayed minimum is below the limit |
| Pages.PageAgreesWithService | apps/auctions/views.py:59-65 | the page shows its bid box to exactly those whom the service would accept iff, where bidding is open to the user, the user has the bidder role exactly when the minimum is below the limit |
| Pages.OfficerIsAcceptedWithoutBox | apps/accounts/permissions.py:27-31 | a reachable auction where an officer with an eligible bidder profile is accepted though no box is shown |
| Pages.BoxWithoutAcceptableAmount | apps/auctions/views.py:53-65 | a reachable auction where the box is shown though no amount at all is accepted |
| BidLaws.InvalidationOutcome | apps/bidding/services.py:109-127 | only the invalidated bid changes; the cache moves only if it was the leader, down to the last accepted bid before it or to nothing |
| BidLaws.ClosingOutcome | apps/bidding/services.py:134-176 | the result of closing told from the bids: no accepted bid, reserve missed, or the last accepted bid wins at the cached price with a pending payment of that price; nothing else changes |
| BidLaws.ResultIsFinal | apps/bidding/services.py:144-168 | from a finished status every later close is refused in every continuation and winner, price and reserve flag are never rewritten |
| BidLaws.WinnerHasARecordedBid | apps/bidding/services.py:69-70 | a winner is never the seller and has a recorded bid at the final price, which met the reserve |
| BidLaws.StepEndBound | apps/bidding/services.py:91-98 | one call moves the end by at most one window per bid it adds, or to the end an accepted reschedule sets |
| BidLaws.EndIsBounded | apps/bidding/services.py:91-98 | over any run the end is at most the latest end that an accepted reschedule has set, or the first one, plus one window per bid placed |
| BidLaws.AuctionMustEnd | apps/bidding/services.py:34-48 | counting only accepted bids possible under the limit and the invalidated ones, extensions are bounded in advance |
| BidLaws.LatestStaffEndWasSet | apps/auctions/scheduling.py:90-91 | the staff end used in these bounds is the end at the start or one that an accepted reschedule has set |
| Engine.StepIgnoresLogs | apps/auctions/services.py:71-77 | what is in the logs changes neither what any call does nor whether it is refused |
| Outcomes.StripTrims | apps/auctions/scheduling.py:29-32 | stripping takes spaces off both ends, nothing else, and leaves none there |
| Outcomes.DigitsReadBack | apps/disputes/services.py:141 | the number of a dispute as written reads back as that number |
| Outcomes.ShortenedIsAPrefix | apps/disputes/services.py:92 | the text kept in an audit row is a prefix of at most 500 characters |
| Outcomes.MovesFollowTheTable | apps/auctions/services.py:51-90 | a status change is accepted iff the table has the edge, with a reason to reject; both logs get the edge, the actor and the reason |
| Outcomes.SubmitOutcome | apps/auctions/services.py:93-94 | only a draft is submitted, and how that is logged |
| Outcomes.ApproveOutcome | apps/auctions/services.py:97-102 | only a submission is approved; status and logs after both commits, or after the first alone |
| Outcomes.RejectOutcome | apps/auctions/services.py:105-106 | only a submission is rejected, and only with a reason |
| Outcomes.CancelOutcome | apps/auctions/services.py:109-110 | a draft, scheduled, live or paused auction can be cancelled and no other |
| Outcomes.ActivateOutcome | apps/auctions/services.py:113-119 | a scheduled auction goes live from its start on, also past its end, and any other stays as it is |
| Outcomes.EditDraftOutcome | apps/listings/forms.py:35-45 | exactly which terms and windows are accepted, on drafts alone, and that they are stored |
| Outcomes.StartNowOutcome | apps/auctions/scheduling.py:39-56 | refusals, start time and both logs of a start by hand |
| Outcomes.RescheduleOutcome | apps/auctions/scheduling.py:59-101 | which check a refused reschedule names, and the schedule and audit row of an accepted one |
| Outcomes.PauseOutcome | apps/auctions/scheduling.py:104-114 | refusals and both logs of a pause, with the stripped reason and the actor |
| Outcomes.ResumeOutcome | apps/auctions/scheduling.py:117-130 | refusals and both logs of a resumption |
| Outcomes.CancelAuctionOutcome | apps/auctions/scheduling.py:133-145 | refusals and both logs of a cancellation by staff |
| Outcomes.RefusedBid | apps/bidding/services.py:37-76 | which check a refused bid names, and the exact minimum when it is too low |
| Outcomes.PlaceBidOutcome | apps/bidding/services.py:78-106 | the bid row, cache, end and audit rows of an accepted bid on a reachable auction, and that nothing else changes |
| Outcomes.InvalidateBidOutcome | apps/bidding/services.py:109-131 | refusals, bid row, cache and audit row of an invalidation on a reachable auction |
| Outcomes.CloseAuctionOutcome | apps/bidding/services.py:134-180 | the result, payment and both logs of a closing on a reachable auction |
| Outcomes.EndNowOutcome | apps/auctions/scheduling.py:148-157 | ending by hand needs a reason and closes with it, stripped, and with the actor |
| Outcomes.MarkPaidOutcome | apps/payments/services.py:37-65 | refusals, payment row, status and logs of a payment recorded as received |
| Outcomes.MarkFailedOutcome | apps/payments/services.py:68-82 | refusals, payment row and audit row of a payment recorded as failed |
| Outcomes.MarkRefundedOutcome | apps/payments/services.py:85-98 | refusals, notes, recorder and audit row of a refund |
| Outcomes.OpenDisputeOutcome | apps/disputes/services.py:65-93 | which check a refused dispute names, and the dispute row, status and logs of an accepted one |
| Outcomes.TakeForReviewOutcome | apps/disputes/services.py:105-113 | only an open dispute is taken, and its status and assignee afterwards |
| Outcomes.RefusedResolution | apps/disputes/services.py:126-144 | which check a refused resolution names |
| Outcomes.ResolveDisputeOutcome | apps/disputes/services.py:131-161 | status, dispute row, payment with its notes, and both logs of an accepted resolution, with or without refund |
| ScheduleLaws.StatusLogIsAPath | apps/auctions/services.py:57-73 | in every reachable state the log chains from DRAFT to the present status along edges of the table and holds one closing iff finished |
| ScheduleLaws.RestsApprovedIffStopped | apps/auctions/services.py:97-102 | an auction rests APPROVED iff some approval of it stopped between its two commits; no service completes one |
| ScheduleLaws.ApprovedStays | apps/auctions/services.py:18-31 | an auction that rests APPROVED is never changed in any way by any calls |
| ScheduleLaws.CommitsMayBeApart | apps/auctions/services.py:97-102 | calls that come between the two commits of an approval change nothing, and the second commit then gives what both at once would have given |
| ScheduleLaws.RescheduleRules | apps/auctions/scheduling.py:59-89 | exactly which changes are allowed in each status, on reachable auctions, and what they change |
| ScheduleLaws.StartNowOpensBidding | apps/auctions/scheduling.py:39-56 | on reachable auctions starting by hand works iff scheduled with the end to come, and any eligible user but the seller can then place the first bid exactly from the starting price up to the limit |
| ScheduleLaws.PauseStopsBidding | apps/auctions/scheduling.py:104-114 | pausing works iff live with a reason, and then every bid is refused, whatever other calls follow, until somebody calls for resumption |
| ScheduleLaws.PauseResumeRoundTrip | apps/auctions/scheduling.py:104-130 | pause and resume give back the same auction but for its logs, iff the end has not passed |
| ScheduleLaws.CancellingKeepsTheRecord | apps/auctions/scheduling.py:133-145 | cancelling is possible in three statuses, is final in every continuation, and keeps bids and schedule |
| ScheduleLaws.EndNowClosesAlike | apps/auctions/scheduling.py:148-157 | ending by hand has the outcome of the automatic close, and after the same further calls the rows differ in the logs alone |
| SettlementLaws.DisputedMeansOneActiveDispute | apps/disputes/models.py:59-68 | an auction is DISPUTED iff exactly one of its disputes is active; otherwise none is |
| SettlementLaws.OpenDisputeIsOffered | apps/disputes/services.py:32-40 | with a category and description a dispute opens iff the page offers it, which is on a closed or settled auction with all disputes resolved, for its seller, winner and every bidder on record; the already-disputed branch is unreachable, and the new row remembers the status found |
| Invariants.ResolveOutcome | apps/disputes/services.py:116-156 | an active dispute always resolves without refund, to the status held before, and with refund iff the payment is paid, to CLOSED; bids, schedule and result are untouched |
| SettlementLaws.DisputeRoundTrip | apps/disputes/services.py:80-89 | open, any calls that leave the dispute active, resolve without refund: the same status, schedule, result and bids up to invalidation |
| SettlementLaws.PaymentIsRecordedOnce | apps/payments/services.py:37-82 | once a payment is recorded as paid or failed every later attempt to record it is refused, in every continuation, and its amount stays |
| SettlementLaws.SettledMeansPaid | apps/payments/services.py:53-61 | a settled auction is paid, and so is a disputed one that was settled before; a payment is of the final price |
| SettlementLaws.NeverSettledAgain | apps/payments/services.py:88-94 | once refunded or failed the payment stays so and the auction is not settled in any continuation |
| SettlementLaws.CanStillSettleIsExact | apps/disputes/services.py:135-146 | a finished auction can still become settled iff it is settled, has a pending payment, or is in dispute and was settled before |
| SettlementLaws.SettledIffPaidIsExact | apps/disputes/models.py:8-17 | a resolution without refund leaves the auction SETTLED iff it is paid, exactly if it was settled before the dispute or is not paid |
| SettlementLaws.PaidDuringDisputeNeverSettles | apps/payments/services.py:59-61 | a payment recorded during a dispute that ends without refund leaves the auction CLOSED and paid, never settled again |
| SettlementLaws.PaidDuringDisputeHappens | apps/disputes/models.py:8-17 | a concrete run from a new listing reaches such an auction |
| Replay.StepExplained | apps/audit/models.py:54-65 | every call writes exactly the audit rows that turn the old ledger into the new one; refused calls write none; a failed payment that loses its audit row is the one exception |
| Replay.RunExplained | apps/bidding/services.py:95-102 | over any stretch of a run without a lost row the audit rows written since replay the old ledger into the new |
| Replay.AuditLogRebuildsTheLot | apps/audit/models.py:5-10 | replaying the whole log over the schedule that the call leaving DRAFT found rebuilds audited moves, bids and validity, schedule, winner, price, payment status, active disputes and the cached highest bid, iff no failed payment lost its audit row |
| BidHistory.GetBidHistory | apps/bidding/services.py:183-218 | every bid is shown with its own number, amount, time and status, marked as the viewer's own iff it is, and with the letter that counts the bidders before its bidder's first bid, or "You", or the username |
| BidHistory.LettersFollowFirstBids | apps/bidding/services.py:199-201 | letters grow in the order of first bids and no two bidders share one |
| BidHistory.LettersAreConsecutive | apps/bidding/services.py:199-200 | the first bidder is Bidder A, and a newcomer gets the letter after those of all bidders before |
| BidHistory.PublicLabelsTellBiddersApart | apps/bidding/services.py:183-190 | to the public two entries carry the same label iff the same bidder made them |
| BidHistory.HistoryIsStable | apps/bidding/services.py:191-218 | later bids and invalidations change no earlier entry but its status, for any viewer |
| BidHistory.HistoryIsStableOverRuns | apps/bidding/services.py:191-218 | the same over any continuation of a reachable auction |
| BidHistory.HistoryIsPrefix | apps/bidding/services.py:191-218 | the history of an extended list has the old history as prefix |
| BidHistory.ViewersSeeThePublicHistory | apps/bidding/services.py:203-208 | a viewer who is not staff sees the public history with "You" on exactly their own bids; staff see usernames |
| BidHistory.UpdateRecipients | apps/notifications/services.py:268-279 | told are the seller first and then everybody with an accepted bid, each once |
| Auctions.Auction.constructor | apps/listings/views.py:46-53 | a new listing is a draft without bids, result, payment, disputes or logs, and with valid terms it is a reachable lot at any time |
| Auctions.Auction.EditDraft | apps/listings/views.py:13-18 | only drafts change, and only to valid terms |
| Auctions.Auction.Submit | apps/auctions/services.py:93-94 | as the transition to SUBMITTED |
| Auctions.Auction.Approve | apps/auctions/services.py:97-102 | two transitions with a commit each, or the first alone when the process is lost between them; the object stays reachable |
| Auctions.Auction.Reject | apps/auctions/services.py:105-106 | a rejection needs a reason |
| Auctions.Auction.Cancel | apps/auctions/services.py:109-110 | as the transition to CANCELLED |
| Auctions.Auction.ActivateIfDue | apps/auctions/services.py:113-119 | goes live iff scheduled with the start come, whether or not the end has passed, and is otherwise left as it is |
| Auctions.Auction.CheckBid | apps/bidding/services.py:37-76 | lets a bid through iff bidding is open to the user and the amount, as the number it denotes, lies from the displayed minimum up to the limit; what comes out is that number in cents; otherwise the first check that fails |
| Auctions.Auction.PlaceBid | apps/bidding/services.py:51-106 | accepts iff the displayed minimum promises it; the new bid leads, the cache is the best accepted bid, and told is the leader before it; the object stays reachable |
| Auctions.Auction.InvalidateBid | apps/bidding/services.py:109-131 | accepts iff the bid exists and a reason is given; no other bid changes, and the cache, always the best accepted bid, moves only if the leader fell |
| Auctions.Auction.CloseAuction | apps/bidding/services.py:134-180 | closes iff live; the last accepted bid wins at the cached highest price iff the reserve is met, with a pending payment of that price; the object stays reachable |
| Auctions.Auction.StartNow | apps/auctions/scheduling.py:39-56 | moves the start if early, and goes live |
| Auctions.Auction.Reschedule | apps/auctions/scheduling.py:59-101 | the checks in their order and the new schedule |
| Auctions.Auction.Pause | apps/auctions/scheduling.py:104-114 | transition and audit row, with the stripped reason |
| Auctions.Auction.Resume | apps/auctions/scheduling.py:117-130 | only from PAUSED and before the end |
| Auctions.Auction.CancelAuction | apps/auctions/scheduling.py:133-145 | only from three statuses, with a reason |
| Auctions.Auction.EndNow | apps/auctions/scheduling.py:148-157 | closes with the reason of the staff member |
| Auctions.Auction.MarkPaid | apps/payments/services.py:37-65 | payment fields, and CLOSED to SETTLED |
| Auctions.Auction.MarkFailed | apps/payments/services.py:68-82 | payment fields, reason required; the audit row is lost if the process is lost between the two commits |
| Auctions.Auction.Participants | apps/disputes/services.py:21-29 | exactly the seller, the winner and everybody with a recorded bid |
| Auctions.Auction.OpenDispute | apps/disputes/services.py:65-93 | the checks in their order, the dispute row, the transition |
| Auctions.Auction.TakeForReview | apps/disputes/services.py:105-113 | only an open dispute is taken |
| Auctions.Auction.ResolveDispute | apps/disputes/services.py:116-161 | refund, transitions and dispute row together, undone together when a step is refused |
| Houses.SweepOutcome | apps/auctions/scheduling.py:160-180 | told from status, start and end: which auctions a sweep starts and closes, leaving none due and changing nothing else |
| Houses.HalvesOfASweep | apps/auctions/scheduling.py:166-178 | the first half makes live exactly the scheduled auctions whose start has come, the second closes exactly the live ones whose end has come, and neither changes any other |
| Houses.SweptByTheRules | apps/auctions/scheduling.py:172-178 | what a sweep closes, on reachable auctions, is won by the last accepted bid at the cached price iff the reserve is met, with a payment of that price; one that was never open closes without a winner |
| Houses.SweepIsIdempotent | apps/auctions/scheduling.py:160-180 | a second sweep at the same moment changes nothing |
| Houses.SweepersAgree | apps/auctions/scheduling.py:160-180 | who sweeps shows only in the logs |
| Houses.SweepEndsTheAuction | apps/auctions/scheduling.py:172-178 | a sweep at or after the bound on extensions, over the ends that staff have actually set, leaves no live auction live |
| Houses.HouseLotsAreReachable | apps/auctions/models.py:32-38 | every auction of a house that listings, calls and sweeps lead to is one that its own run of calls leads to |
| Houses.HouseInv | apps/auctions/models.py:32-38 | so every auction of such a house satisfies the invariant |
| Houses.HouseGoesOn | apps/auctions/models.py:32-38 | the empty house is reachable, and so is what any later listing, call or sweep makes of a reachable one |
| Houses.CallsTouchOneAuction | apps/listings/views.py:46-53 | a call changes one auction and no other, and a listing adds one empty draft iff its terms are valid |
| Sweeping.AuctionHouse.ActivateDue | apps/auctions/scheduling.py:166-171 | first loop: each auction is started if due, and the count is the number of scheduled rows whose start has come |
| Sweeping.AuctionHouse.CloseEnded | apps/auctions/scheduling.py:172-178 | second loop: each auction is closed if ended, and the count is the number of live rows whose end has come |
| Sweeping.AuctionHouse.SweepDue | apps/auctions/scheduling.py:160-180 | both loops: no row is left scheduled past its start or live past its end, no other row changes, and the counts are the numbers of rows to start and to close, a scheduled row past both counting twice |
| Sweeping.AuctionHouse.ActivateScheduledAuctions | apps/auctions/management/commands/activate_scheduled_auctions.py:21-28 | the command starts exactly the due auctions and is never stopped by a refusal |
| Sweeping.AuctionHouse.CloseEndedAuctions | apps/bidding/management/commands/close_ended_auctions.py:20-28 | the command closes exactly the ended auctions and is never stopped by a refusal |
| Sweeping.AuctionHouse.RunCommands | apps/bidding/management/commands/close_ended_auctions.py:20-28 | both commands in order give the house and the counts of a sweep |
| Sweeping.SweepLeavesNothingDue | apps/auctions/scheduling.py:160-180 | after a sweep no row is due or overdue, both counts are zero and a further sweep changes nothing |
| Sweeping.SweepMatchesCommands | apps/auctions/scheduling.py:160-163 | a sweep by anybody leaves the rows the commands leave, but for who appears in the logs |
| Reports.BuildSummary | apps/reports/services.py:55-101 | the loops over the rows give a summary whose status rows and category columns add up to its printed totals, whose sold and unsold auctions are the finished ones, and whose sales, without dates on a reachable house, are exactly its payment rows taken together |
| Reports.Categories | apps/reports/services.py:78-87 | each category of an auction in range once, and no other |
| Reports.AdjacentDatesAdd | apps/reports/services.py:32-44 | every figure over two adjacent date ranges adds up to that of the joined range |
| Reports.RangesAreLocalDays | apps/reports/services.py:32-44 | a range of dates takes in exactly the instants of its local days, first and last included |
| Reports.StatusRowsPartition | apps/reports/services.py:57-60 | the counts of the status rows add up to the number of auctions |
| Reports.CategoryRowsPartition | apps/reports/services.py:78-87 | the total, sold and value columns of the category rows add up to the totals of the report |
| Reports.MoneyIsConserved | apps/reports/services.py:62-76 | over a reachable house the sales value is the sum of pending, paid, failed and refunded payments, and sales are as many as payments |
| Reports.SalesArePayments | apps/reports/services.py:62-76 | so the sales value and the number of sales are the sums of the payment rows |
| Reports.HeadCountsAreExact | apps/reports/services.py:57-65 | every count of auctions, sales or payments, by status or category or in all, is the number of rows that meet its conditions |
| Reports.BidsAreCounted | apps/reports/services.py:68-69 | the bid count of an auction is the number of its accepted bids of the range |
| Reports.RowsSayWhatTheyShow | apps/reports/services.py:59-87 | each status, payment and category row gives the figures of its own status or category, and no status that occurs is left out |
| Reports.ReportFollowsRecording | apps/payments/services.py:37-82 | recording a payment as paid or failed moves its count and amount from the pending row to that row and changes no other |
| Reports.ReportFollowsRefund | apps/disputes/services.py:135-142 | a refund moves count and amount from the paid row to the refunded one |
| Reports.ReportFollowsClosing | apps/bidding/services.py:134-176 | closing an auction counts it as finished, and as sold at the price of the last accepted bid with a pending payment of that price iff the reserve is met |
| Reports.ReportFollowsBids | apps/bidding/services.py:80-125 | an accepted bid adds one to the bid count and its first invalidation takes it out again |
| Reports.ReportFollowsDisputes | apps/disputes/services.py:65-156 | a dispute opened counts as raised and active, and resolving it takes it out of the active ones |
| Locking.PlanReadsOneColumn | apps/bidding/services.py:117-129 | two arguments lead to the same writes and refusals iff they agree on the number of the bid to invalidate, where there is an invalidation to record |
| Locking.PlanCarriesOut | apps/bidding/services.py:54-100 | deciding from the locked row and writing statement by statement is the call itself, refusals included |
| Interleaving.RowLockSerialises | apps/bidding/services.py:54-100 | whatever interleaving, with crashes, commits what the served calls make of the row one at a time in lock order, and that order names every transaction past waiting exactly once; what the holder has read is the committed row, its copy and the database hold that row with exactly the writes done, and the writes done and to come are what it would decide on the committed row |
| Interleaving.LostIffCrashed | apps/bidding/services.py:51-106 | in every interleaving a transaction is lost and rolled back iff it crashed while it held the lock |
| Interleaving.TickAndFetch | apps/bidding/services.py:54-58 | time passes forwards only, and a caller that reads the auction again holds what is then committed |
| Interleaving.EveryCallCanTakeEffect | apps/auctions/scheduling.py:104-114 | whatever has happened, the holder of the lock, or anyone waiting while it is free, can finish by steps of its own, and then what is committed is what its call makes of the row and the lock is free |
| Interleaving.ConcurrentRunsAreReachable | apps/bidding/services.py:54-100 | what concurrent transactions commit is reachable one call at a time, so every law above holds of it |
| Interleaving.StaleArgumentsNeverMatter | apps/bidding/services.py:117-129 | how long ago the objects passed in were read makes no difference to anything stored |
| Interleaving.DecidedFromTheArgument | apps/bidding/services.py:142-166 | a closing decided from the object passed in would save the winner and price of that object, whatever the row says |
| Interleaving.DecidingFromTheArgumentLosesABid | apps/bidding/services.py:54-56 | a reachable auction where that would leave no winner though the row says who has won |

## Left out

- Views, forms, templates, admin pages, URLs, permissions and login: framework plumbing; the admin pages and the demo seeder write fields around the services and are no steps of the model.
- Delivery and text of notifications, the inbox, and notices of wins, payments and disputes: only who is outbid and who hears of staff updates is modelled.
- Timestamps of log rows and `updated_at`. The time kept with a bid is the moment of its checks; of the row's own timestamp, taken a moment later, `StoredTimeStaysIff` tells when it is inside the window, and the reports count bids by the former.
- Interleavings of calls that look at an unlocked object first (activation, recording payments, the query of a sweep): these are single steps on fresh rows. Submitting, approving, rejecting and cancelling a listing, which lock the row anew in each transition, and opening, reviewing and resolving disputes, which lock further rows, are single steps as well.
- A process lost in the middle of a call: modelled between the two commits of an approval and of a failed payment, and anywhere within the calls that `Interleaving.dfy` splits; elsewhere a call is one transaction and is rolled back whole.
- Invariants.ResolveOutcome: the note of a refund names the dispute by its position among the disputes of its auction, counted from one, where the repository has a primary key.
- Deletion of users, which would clear a winner, and the statuses and edges no service uses (COMPLETED, LIVE to DISPUTED): kept in the transition table, with no step reaching them.
- Account verification: eligibility is an input of each bid. The detail page of a user with the bidder role but no profile is shown without a bid box rather than failing.
- Interleaving.RowLockSerialises: covers one auction row; locks on different auctions are independent, and waiting, deadlock and timeouts are not modelled.
- Reports.BuildSummary: category rows appear in order of first appearance and not sorted by size; averages, percentages, verification counts and the CSV files are not modelled.
- BidHistory.GetBidHistory: letters past the last character code, which would need more than a million bidders on one auction, are not refused.
- Sweeping.AuctionHouse.SweepDue: the clock stands still during a sweep, and rows are visited in the order of their keys rather than newest first.
- Titles, descriptions, images and locations of listings.
