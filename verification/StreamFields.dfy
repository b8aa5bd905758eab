/** The fields of a stream entry: written by `AppendBid`, read by `parseMessage`. */
module StreamFields {
  import opened Domain
  import opened Decimal

  datatype BidIngress = BidIngress(
    auctionId: string,
    bidderId: string,
    amount: Int64,
    idempotencyKey: string,
    correlationId: string)

  datatype StreamEntry = StreamEntry(id: string, bid: BidIngress)

  /** A field as the client library hands it over; any other Go value counts by how
      `fmt.Sprint` prints it. */
  datatype FieldValue = Text(text: string) | Bytes(text: string) | Printed(text: string)

  datatype FieldError =
    | AuctionIdRequired | BidderIdRequired | AmountNotPositive
    | IdempotencyKeyRequired | CorrelationIdRequired
    | EntryIdMissing | FieldMissing(name: string) | BadAmount

  /** The fields that XADD is given, or why the bid is not sent. */
  function IngressFields(bid: BidIngress): Result<map<string, FieldValue>, FieldError> {
    if bid.auctionId == "" then Err(AuctionIdRequired)
    else if bid.bidderId == "" then Err(BidderIdRequired)
    else if bid.amount <= 0 then Err(AmountNotPositive)
    else if bid.idempotencyKey == "" then Err(IdempotencyKeyRequired)
    else if bid.correlationId == "" then Err(CorrelationIdRequired)
    else Ok(map[
      "auction_id" := Text(bid.auctionId),
      "bidder_id" := Text(bid.bidderId),
      "amount" := Text(Print(bid.amount)),
      "idempotency_key" := Text(bid.idempotencyKey),
      "correlation_id" := Text(bid.correlationId)])
  }

  function FieldString(values: map<string, FieldValue>, name: string): Result<string, FieldError> {
    if name in values then Ok(values[name].text) else Err(FieldMissing(name))
  }

  /** Reads the fields in the order auction, bidder, amount, key, correlation, and reports the
      first one that is missing. */
  function ParseMessage(id: string, values: map<string, FieldValue>): Result<StreamEntry, FieldError> {
    if id == "" then Err(EntryIdMissing)
    else match FieldString(values, "auction_id")
      case Err(e) => Err(e)
      case Ok(auctionId) => match FieldString(values, "bidder_id")
      case Err(e) => Err(e)
      case Ok(bidderId) => match FieldString(values, "amount")
      case Err(e) => Err(e)
      case Ok(amount) => if ParseInt(amount).None? then Err(BadAmount)
      else match FieldString(values, "idempotency_key")
      case Err(e) => Err(e)
      case Ok(key) => match FieldString(values, "correlation_id")
      case Err(e) => Err(e)
      case Ok(correlationId) =>
        Ok(StreamEntry(id, BidIngress(auctionId, bidderId, ParseInt(amount).value, key, correlationId)))
  }

  predicate Carries(values: map<string, FieldValue>, name: string, text: string) {
    name in values && values[name].text == text
  }

  /** What is read from a message: nothing unless its identifier and all five fields are there and
      the amount is a number that fits, and otherwise just those fields. */
  lemma ParseMessageExact(id: string, values: map<string, FieldValue>, e: StreamEntry)
    ensures ParseMessage(id, values) == Ok(e) <==>
              && id != "" && e.id == id
              && Carries(values, "auction_id", e.bid.auctionId)
              && Carries(values, "bidder_id", e.bid.bidderId)
              && Carries(values, "idempotency_key", e.bid.idempotencyKey)
              && Carries(values, "correlation_id", e.bid.correlationId)
              && "amount" in values && Spells(values["amount"].text, e.bid.amount)
  {
    if "amount" in values {
      ParseIntExact(values["amount"].text, e.bid.amount);
    }
  }

  const FIELDS := ["auction_id", "bidder_id", "amount", "idempotency_key", "correlation_id"]

  predicate AllBefore(values: map<string, FieldValue>, k: nat)
    requires k <= |FIELDS|
  {
    forall j :: 0 <= j < k ==> FIELDS[j] in values
  }

  /** What is reported of a message that does not read: its missing identifier, the first missing
      field, or an amount that spells no 64-bit number, whichever comes first. */
  lemma ParseMessageErrors(id: string, values: map<string, FieldValue>)
    ensures ParseMessage(id, values) == Err(EntryIdMissing) <==> id == ""
    ensures ParseMessage(id, values) == Err(BadAmount) <==>
              && id != "" && AllBefore(values, 3) && "amount" in values
              && forall n: Int64 :: !Spells(values["amount"].text, n)
    ensures forall name :: ParseMessage(id, values) == Err(FieldMissing(name)) <==>
              && id != ""
              && (exists k: nat :: k < |FIELDS| && FIELDS[k] == name && AllBefore(values, k)
                                   && name !in values
                                   && (k > 2 ==> "amount" in values
                                                 && exists n: Int64 :: Spells(values["amount"].text, n)))
  {
    AllBeforeMeans(values);
    if "amount" in values {
      forall n: Int64 ensures ParseInt(values["amount"].text) == Some(n) <==> Spells(values["amount"].text, n) {
        ParseIntExact(values["amount"].text, n);
      }
    }
  }

  lemma AllBeforeMeans(values: map<string, FieldValue>)
    ensures AllBefore(values, 0)
    ensures AllBefore(values, 1) <==> "auction_id" in values
    ensures AllBefore(values, 2) <==> AllBefore(values, 1) && "bidder_id" in values
    ensures AllBefore(values, 3) <==> AllBefore(values, 2) && "amount" in values
    ensures AllBefore(values, 4) <==> AllBefore(values, 3) && "idempotency_key" in values
  {
    assert FIELDS[0] == "auction_id" && FIELDS[1] == "bidder_id" && FIELDS[2] == "amount"
           && FIELDS[3] == "idempotency_key";
  }

  /** A bid is sent exactly when its texts are not empty and its amount is positive, and
      whatever is sent is read back unchanged, with any further fields beside it. */
  lemma IngressRoundTrip(bid: BidIngress, id: string, more: map<string, FieldValue>)
    requires id != ""
    ensures IngressFields(bid).Ok? <==>
              bid.auctionId != "" && bid.bidderId != "" && bid.amount > 0
              && bid.idempotencyKey != "" && bid.correlationId != ""
    ensures IngressFields(bid) == Err(AuctionIdRequired) <==> bid.auctionId == ""
    ensures IngressFields(bid) == Err(BidderIdRequired) <==> bid.auctionId != "" && bid.bidderId == ""
    ensures IngressFields(bid) == Err(AmountNotPositive) <==>
              bid.auctionId != "" && bid.bidderId != "" && bid.amount <= 0
    ensures IngressFields(bid) == Err(IdempotencyKeyRequired) <==>
              bid.auctionId != "" && bid.bidderId != "" && bid.amount > 0 && bid.idempotencyKey == ""
    ensures IngressFields(bid).Ok? ==>
              ParseMessage(id, more + IngressFields(bid).value) == Ok(StreamEntry(id, bid))
  {
    if IngressFields(bid).Ok? {
      PrintParses(bid.amount);
    }
  }
}
