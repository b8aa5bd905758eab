/** The acceptance rules for a bid, with Go's int64 arithmetic. */
module Validation {
  import opened Domain

  datatype AuctionState =
    | Draft | Scheduled | Open | Paused | Closing | Closed | Cancelled | Settled

  /** Listed in the order in which the rules are checked. */
  datatype Reason =
    | AuctionIdRequired | BidderIdRequired | IdempotencyKeyRequired | InvalidAmount
    | SubmittedAtRequired | AuctionNotFound | EffectiveCloseTimeRequired | AuctionNotOpen
    | BidderNotRegistered | BidAtOrAfterClose | InvalidCurrentPrice | InvalidIncrement
    | PricingOverflow | BidBelowMinimum

  datatype Attempt = Attempt(
    auctionId: string,
    bidderId: string,
    amount: Int64,
    idempotencyKey: string,
    correlationId: string,
    streamEntryId: string,
    submittedAt: Time)

  datatype Snapshot = Snapshot(
    present: bool,
    state: AuctionState,
    currentPrice: Int64,
    increment: Int64,
    bidderRegistered: bool,
    effectiveCloseTime: Time)

  /** The rejection event copies the attempt and the snapshot. */
  datatype Rejection = Rejection(
    reason: Reason,
    attempt: Attempt,
    snapshot: Snapshot,
    requiredMinimum: Int64)

  datatype Verdict = Verdict(accepted: bool, minimumAmount: Int64, rejection: Option<Rejection>)

  /** Two's-complement wrap-around to 64 bits. */
  function Wrap64(x: int): Int64 {
    (x - MIN_INT64) % 0x1_0000_0000_0000_0000 + MIN_INT64
  }

  function Reject(a: Attempt, s: Snapshot, reason: Reason, minimum: Int64): Verdict {
    Verdict(false, minimum, Some(Rejection(reason, a, s, minimum)))
  }

  function EvaluateBid(a: Attempt, s: Snapshot): Verdict {
    if a.auctionId == "" then Reject(a, s, AuctionIdRequired, 0)
    else if a.bidderId == "" then Reject(a, s, BidderIdRequired, 0)
    else if a.idempotencyKey == "" then Reject(a, s, IdempotencyKeyRequired, 0)
    else if a.amount <= 0 then Reject(a, s, InvalidAmount, 0)
    else if a.submittedAt == ZERO_TIME then Reject(a, s, SubmittedAtRequired, 0)
    else if !s.present then Reject(a, s, AuctionNotFound, 0)
    else if s.effectiveCloseTime == ZERO_TIME then Reject(a, s, EffectiveCloseTimeRequired, 0)
    else if !s.state.Open? then Reject(a, s, AuctionNotOpen, 0)
    else if !s.bidderRegistered then Reject(a, s, BidderNotRegistered, 0)
    else if !(a.submittedAt < s.effectiveCloseTime) then Reject(a, s, BidAtOrAfterClose, 0)
    else if s.currentPrice < 0 then Reject(a, s, InvalidCurrentPrice, 0)
    else if s.increment <= 0 then Reject(a, s, InvalidIncrement, 0)
    else if s.currentPrice > Wrap64(MAX_INT64 - s.increment) then Reject(a, s, PricingOverflow, 0)
    else
      var minimum := Wrap64(s.currentPrice + s.increment);
      if a.amount < minimum then Reject(a, s, BidBelowMinimum, minimum)
      else Verdict(true, minimum, None)
  }

  /** What each reason means, over unbounded integers. */
  predicate Violates(a: Attempt, s: Snapshot, reason: Reason) {
    match reason
    case AuctionIdRequired => a.auctionId == ""
    case BidderIdRequired => a.bidderId == ""
    case IdempotencyKeyRequired => a.idempotencyKey == ""
    case InvalidAmount => a.amount <= 0
    case SubmittedAtRequired => a.submittedAt == ZERO_TIME
    case AuctionNotFound => !s.present
    case EffectiveCloseTimeRequired => s.effectiveCloseTime == ZERO_TIME
    case AuctionNotOpen => s.state != Open
    case BidderNotRegistered => !s.bidderRegistered
    case BidAtOrAfterClose => a.submittedAt >= s.effectiveCloseTime
    case InvalidCurrentPrice => s.currentPrice < 0
    case InvalidIncrement => s.increment <= 0
    case PricingOverflow => s.currentPrice + s.increment > MAX_INT64
    case BidBelowMinimum => a.amount < s.currentPrice + s.increment
  }

  function Rank(reason: Reason): nat {
    match reason
    case AuctionIdRequired => 0
    case BidderIdRequired => 1
    case IdempotencyKeyRequired => 2
    case InvalidAmount => 3
    case SubmittedAtRequired => 4
    case AuctionNotFound => 5
    case EffectiveCloseTimeRequired => 6
    case AuctionNotOpen => 7
    case BidderNotRegistered => 8
    case BidAtOrAfterClose => 9
    case InvalidCurrentPrice => 10
    case InvalidIncrement => 11
    case PricingOverflow => 12
    case BidBelowMinimum => 13
  }

  /** A bid is rejected exactly for the first rule that it violates, and accepted exactly when it
      violates none. The stated minimum is the true sum whenever it is stated: the guard keeps
      the 64-bit arithmetic from ever wrapping. */
  lemma EvaluateBidExact(a: Attempt, s: Snapshot)
    ensures var v := EvaluateBid(a, s);
            && (v.accepted <==> forall reason :: !Violates(a, s, reason))
            && (v.accepted <==> v.rejection.None?)
            && (v.accepted ==> v.minimumAmount == s.currentPrice + s.increment <= a.amount)
            && (v.rejection.Some? ==>
                  && v.rejection.value.attempt == a && v.rejection.value.snapshot == s
                  && Violates(a, s, v.rejection.value.reason)
                  && (forall reason :: Rank(reason) < Rank(v.rejection.value.reason) ==>
                        !Violates(a, s, reason))
                  && v.rejection.value.requiredMinimum == v.minimumAmount ==
                       (if v.rejection.value.reason.BidBelowMinimum?
                        then s.currentPrice + s.increment else 0))
  {
    hide Wrap64;
    var v := EvaluateBid(a, s);
    NoWrap(s);
    if v.rejection.Some? {
      assert Violates(a, s, v.rejection.value.reason);
    } else {
      forall reason ensures !Violates(a, s, reason) {
      }
    }
  }

  lemma NoWrap(s: Snapshot)
    ensures 0 < s.increment ==> Wrap64(MAX_INT64 - s.increment) == MAX_INT64 - s.increment
    ensures 0 <= s.currentPrice && 0 < s.increment && s.currentPrice <= MAX_INT64 - s.increment ==>
              Wrap64(s.currentPrice + s.increment) == s.currentPrice + s.increment
  {
  }

  /** Only the stated order makes the guard safe: with a non-positive increment the subtraction
      in the overflow guard would itself wrap. */
  lemma GuardNeedsPositiveIncrement(s: Snapshot)
    ensures Wrap64(MAX_INT64 - s.increment) == MAX_INT64 - s.increment <==> s.increment >= 0
  {
  }

  /** The event tells of this attempt and this snapshot, column by column, and of the first rule that
      they violate; it states the minimum exactly when that rule is about it. */
  predicate TellsOf(event: Rejection, a: Attempt, s: Snapshot) {
    && event.attempt.auctionId == a.auctionId && event.attempt.bidderId == a.bidderId
    && event.attempt.idempotencyKey == a.idempotencyKey
    && event.attempt.correlationId == a.correlationId
    && event.attempt.streamEntryId == a.streamEntryId
    && event.attempt.amount == a.amount && event.attempt.submittedAt == a.submittedAt
    && event.snapshot.state == s.state && event.snapshot.currentPrice == s.currentPrice
    && event.snapshot.increment == s.increment
    && event.snapshot.effectiveCloseTime == s.effectiveCloseTime
    && Violates(a, s, event.reason)
    && (forall reason :: Rank(reason) < Rank(event.reason) ==> !Violates(a, s, reason))
    && event.requiredMinimum ==
         (if event.reason.BidBelowMinimum? then s.currentPrice + s.increment else 0)
  }

  /** Validation with its rejection sink. */
  class BidValidator {
    var rejections: seq<Rejection>

    constructor ()
      ensures rejections == []
    {
      rejections := [];
    }

    /** `ok` is false when the sink fails, with or without having taken the event. */
    method Validate(a: Attempt, s: Snapshot) returns (v: Verdict, ok: bool)
      modifies this
      ensures v == EvaluateBid(a, s)
      ensures v.accepted <==> forall reason :: !Violates(a, s, reason)
      ensures v.accepted ==> ok && rejections == old(rejections)
      ensures !v.accepted && ok ==> |rejections| == |old(rejections)| + 1
      ensures rejections == old(rejections)
              || (!v.accepted && |rejections| == |old(rejections)| + 1
                  && rejections[..|old(rejections)|] == old(rejections)
                  && TellsOf(rejections[|old(rejections)|], a, s))
    {
      EvaluateBidExact(a, s);
      v := EvaluateBid(a, s);
      if v.rejection.None? {
        return v, true;
      }
      var taken: bool := *;
      var replied: bool := *;
      if taken {
        rejections := rejections + [v.rejection.value];
      }
      ok := taken && replied;
    }
  }
}
