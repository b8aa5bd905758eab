/** Values shared by every part of the BidLane model. */
module Domain {

  datatype Option<+T> = None | Some(value: T)

  datatype Result<+T, +E> = Ok(value: T) | Err(error: E)

  /** A 128-bit identifier; PostgreSQL orders identifiers as unsigned numbers. */
  type Uuid = nat

  /** Milliseconds since the Unix epoch. */
  type Time = int

  /** Go's zero `time.Time`, which `IsZero` recognises: 1 January of year 1, so 1969 years with their
      leap days before the epoch. */
  const ZERO_TIME: Time := -(1969 * 365 + 1969 / 4 - 1969 / 100 + 1969 / 400) * 24 * 60 * 60 * 1000

  const MAX_INT64: int := 0x7fff_ffff_ffff_ffff
  const MIN_INT64: int := -0x8000_0000_0000_0000
  const MAX_UINT64: int := 0xffff_ffff_ffff_ffff

  /** Go's int64. */
  type Int64 = x: int | MIN_INT64 <= x <= MAX_INT64

  /** Whether a call that may fail does. */
  method MayFail(possible: bool) returns (fails: bool)
    ensures fails ==> possible
  {
    fails := *;
    fails := fails && possible;
  }

  /** The request that the consumer hands to the ledger. */
  datatype Bid = Bid(
    auctionId: Uuid,
    bidderId: Uuid,
    amount: Int64,
    key: Uuid,
    streamId: string,
    correlationId: string)
}
