/** What one consumer does to the ledger with one stream message, and with a whole stream.

    This is the crash-free meaning of the consumer. Messages are settled in identifier order;
    a position in the stream stands for the identifier. */
module Settlement {
  import opened Domain
  import opened Ledger
  import opened StreamId
  import opened StreamFields
  import Decimal

  datatype Message = Message(id: string, fields: map<string, FieldValue>)

  /** `parseUuid` is `uuid.Parse`. `validate` is the optional `ValidateEntry` hook, which reads
      the committed ledger. */
  datatype Config = Config(
    auctionId: string,
    parseUuid: string -> Option<Uuid>,
    validate: Option<(Book, StreamEntry) -> bool>)

  datatype PersistError =
    | WrongAuction | BadAuctionId | BadBidderId | BadIdempotencyKey | BadStreamId(error: IdError)

  function ToBid(c: Config, e: StreamEntry): Result<(Bid, Time), PersistError> {
    if e.bid.auctionId != c.auctionId then Err(WrongAuction)
    else
      var auctionId := c.parseUuid(e.bid.auctionId);
      var bidderId := c.parseUuid(e.bid.bidderId);
      var key := c.parseUuid(e.bid.idempotencyKey);
      var at := StreamEntryTime(e.id);
      if auctionId.None? then Err(BadAuctionId)
      else if bidderId.None? then Err(BadBidderId)
      else if key.None? then Err(BadIdempotencyKey)
      else if at.Err? then Err(BadStreamId(at.error))
      else Ok((Bid(auctionId.value, bidderId.value, e.bid.amount, key.value, e.id,
                   e.bid.correlationId), at.value))
  }

  function Parsed(m: Message): Result<StreamEntry, FieldError> {
    ParseMessage(m.id, m.fields)
  }

  predicate Accepts(c: Config, book: Book, e: StreamEntry) {
    c.validate.None? || c.validate.value(book, e)
  }

  /** The bid that a message asks to append to this book, once it has passed validation. */
  function Request(c: Config, book: Book, m: Message): Option<(Bid, Time)> {
    if Parsed(m).Err? || !Accepts(c, book, Parsed(m).value) || ToBid(c, Parsed(m).value).Err? then None
    else if ToBid(c, Parsed(m).value).value.0.auctionId !in book then None
    else Some(ToBid(c, Parsed(m).value).value)
  }

  function Settle(c: Config, book: Book, m: Message): Book {
    var request := Request(c, book, m);
    if request.None? then book
    else
      var (bid, at) := request.value;
      book[bid.auctionId := Append(AntiSnipe, book[bid.auctionId], bid, at).0]
  }

  function SettleAll(c: Config, book: Book, ms: seq<Message>): Book {
    if ms == [] then book else Settle(c, SettleAll(c, book, ms[..|ms| - 1]), ms[|ms| - 1])
  }

  lemma {:induction false} SettleConcat(c: Config, book: Book, ms: seq<Message>, ns: seq<Message>)
    ensures SettleAll(c, SettleAll(c, book, ms), ns) == SettleAll(c, book, ms + ns)
  {
    hide Settle;
    if ns == [] {
      assert ms + ns == ms;
    } else {
      SettleConcat(c, book, ms, ns[..|ns| - 1]);
      assert (ms + ns)[..|ms + ns| - 1] == ms + ns[..|ns| - 1];
    }
  }

  lemma AppendTwice(a: Auction, bid: Bid, at: Time)
    ensures var a' := Append(AntiSnipe, a, bid, at).0;
            Append(AntiSnipe, a', bid, at).0 == a'
  {
    var (a', r) := Append(AntiSnipe, a, bid, at);
    if a' != a {
      assert a'.bids[|a.bids|].key == bid.key;
    }
  }

  /** Delivering a message again changes nothing, whatever the validator says the second time. */
  lemma SettleTwice(c: Config, book: Book, m: Message)
    ensures Settle(c, Settle(c, book, m), m) == Settle(c, book, m)
  {
    var request := Request(c, book, m);
    if request.Some? {
      var (bid, at) := request.value;
      AppendTwice(book[bid.auctionId], bid, at);
    }
  }

  /** Settling a stretch that starts with the last settled message again. */
  lemma SettleOverlap(c: Config, book: Book, ms: seq<Message>, p: nat, q: nat)
    requires p < q <= |ms|
    ensures SettleAll(c, SettleAll(c, book, ms[..p + 1]), ms[p..q]) == SettleAll(c, book, ms[..q])
  {
    hide Settle;
    var once := SettleAll(c, book, ms[..p + 1]);
    assert ms[..p + 1][..p] == ms[..p];
    SettleTwice(c, SettleAll(c, book, ms[..p]), ms[p]);
    assert SettleAll(c, once, [ms[p]]) == once by {
      assert [ms[p]][..0] == [];
    }
    SettleConcat(c, once, [ms[p]], ms[p + 1..q]);
    assert [ms[p]] + ms[p + 1..q] == ms[p..q];
    SettleConcat(c, book, ms[..p + 1], ms[p + 1..q]);
    assert ms[..p + 1] + ms[p + 1..q] == ms[..q];
  }

  /** A redelivery of the last settled message, followed by what comes after it, is the run
      without the redelivery. */
  lemma Resettle(c: Config, book: Book, ms: seq<Message>, p: nat, n: nat, q: nat)
    requires p <= n <= p + 1 && n <= |ms| && p <= q <= |ms|
    ensures SettleAll(c, SettleAll(c, book, ms[..n]), ms[p..q])
              == SettleAll(c, book, ms[..if n <= q then q else n])
  {
    hide Settle;
    if q < n {
      assert ms[p..q] == [];
    } else if n == p {
      SettleConcat(c, book, ms[..p], ms[p..q]);
      assert ms[..p] + ms[p..q] == ms[..q];
    } else {
      SettleOverlap(c, book, ms, p, q);
    }
  }

  // ---- Which messages the consumer gets past ----

  /** The ledger answers the message's append without an error. */
  predicate Answered(c: Config, book: Book, m: Message) {
    && Parsed(m).Ok? && ToBid(c, Parsed(m).value).Ok?
    && var (bid, at) := ToBid(c, Parsed(m).value).value;
       bid.auctionId in book && Append(AntiSnipe, book[bid.auctionId], bid, at).1.Ok?
  }

  /** The hook turns the message away, or the ledger answers it. Any other message stops the
      consumer. */
  predicate Passes(c: Config, book: Book, m: Message) {
    Parsed(m).Ok? && (Accepts(c, book, Parsed(m).value) ==> Answered(c, book, m))
  }

  predicate AllPass(c: Config, book: Book, ms: seq<Message>) {
    forall k :: 0 <= k < |ms| ==> Passes(c, SettleAll(c, book, ms[..k]), ms[k])
  }

  lemma AllPassMore(c: Config, book: Book, ms: seq<Message>, m: Message)
    ensures AllPass(c, book, ms + [m]) <==> AllPass(c, book, ms) && Passes(c, SettleAll(c, book, ms), m)
  {
    hide Passes, SettleAll;
    var more := ms + [m];
    assert more[..|ms|] == ms && more[|ms|] == m;
    assert forall k :: 0 <= k < |ms| ==> more[..k] == ms[..k] && more[k] == ms[k];
  }

  lemma AllPassPrefix(c: Config, book: Book, ms: seq<Message>, n: nat)
    requires AllPass(c, book, ms) && n <= |ms|
    ensures AllPass(c, book, ms[..n])
  {
    hide Passes, SettleAll;
    assert forall k :: 0 <= k < n ==> ms[..n][..k] == ms[..k];
  }

  /** A message passes before its effect exactly when it passes after it: its key is in the ledger
      then, or it has no effect. */
  lemma PassesAgain(c: Config, book: Book, m: Message)
    ensures Passes(c, Settle(c, book, m), m) <==> Passes(c, book, m)
  {
    hide StreamEntryTime, Parsed;
    if Request(c, book, m).Some? {
      var (bid, at) := Request(c, book, m).value;
      var a := book[bid.auctionId];
      var a' := Append(AntiSnipe, a, bid, at).0;
      if a' == a {
        assert Settle(c, book, m) == book;
      } else {
        assert a'.bids[|a.bids|] == bid && HasKey(a'.bids, bid.key);
      }
    }
  }

  /** A message that stops the consumer has no effect. */
  lemma StopsWithoutEffect(c: Config, book: Book, m: Message)
    requires !Passes(c, book, m)
    ensures Settle(c, book, m) == book
  {
    hide StreamEntryTime, Parsed;
  }

  lemma SettleOne(c: Config, book: Book, ms: seq<Message>, p: nat)
    requires p < |ms|
    ensures SettleAll(c, book, ms[..p + 1]) == Settle(c, SettleAll(c, book, ms[..p]), ms[p])
  {
    hide Settle;
    assert ms[..p + 1][..p] == ms[..p];
  }

  lemma RestPassesAt(c: Config, book: Book, ms: seq<Message>, p: nat, n: nat, k: nat)
    requires p <= n <= p + 1 && n <= |ms| && p <= k < |ms|
    requires Passes(c, SettleAll(c, book, ms[..k]), ms[k])
    ensures Passes(c, SettleAll(c, SettleAll(c, book, ms[..n]), ms[p..k]), ms[k])
  {
    hide Settle, SettleAll, Passes;
    Resettle(c, book, ms, p, n, k);
    if k < n {
      SettleOne(c, book, ms, p);
      PassesAgain(c, SettleAll(c, book, ms[..p]), ms[p]);
    }
  }

  /** What is left of a stream that passes still passes after a restart. */
  lemma RestPasses(c: Config, book: Book, ms: seq<Message>, p: nat, n: nat, q: nat)
    requires AllPass(c, book, ms) && p <= n <= p + 1 && n <= |ms| && p <= q <= |ms|
    ensures AllPass(c, SettleAll(c, book, ms[..n]), ms[p..q])
  {
    hide SettleAll, Passes;
    var rest := ms[p..q];
    forall k | 0 <= k < |rest|
      ensures Passes(c, SettleAll(c, SettleAll(c, book, ms[..n]), rest[..k]), rest[k])
    {
      assert rest[..k] == ms[p..p + k] && rest[k] == ms[p + k];
      RestPassesAt(c, book, ms, p, n, p + k);
    }
  }

  lemma PassesAtFirst(c: Config, book: Book, ms: seq<Message>, p: nat, n: nat, k: nat)
    requires p <= n <= p + 1 && n <= |ms| && p <= k < |ms|
    requires Passes(c, SettleAll(c, SettleAll(c, book, ms[..n]), ms[p..k]), ms[k])
    ensures Passes(c, SettleAll(c, book, ms[..k]), ms[k])
  {
    hide Settle, SettleAll, Passes;
    Resettle(c, book, ms, p, n, k);
    if k < n {
      SettleOne(c, book, ms, p);
      PassesAgain(c, SettleAll(c, book, ms[..p]), ms[p]);
    }
  }

  /** What passed before a restart and what passed after it make up a stream that passes. */
  lemma AllPassJoin(c: Config, book: Book, ms: seq<Message>, p: nat, n: nat, q: nat)
    requires p <= n <= p + 1 && n <= |ms| && p <= q <= |ms|
    requires AllPass(c, book, ms[..p]) && AllPass(c, SettleAll(c, book, ms[..n]), ms[p..q])
    ensures AllPass(c, book, ms[..q])
  {
    hide SettleAll, Passes;
    forall k | 0 <= k < q ensures Passes(c, SettleAll(c, book, ms[..q][..k]), ms[..q][k]) {
      assert ms[..q][..k] == ms[..k];
      if k < p {
        assert ms[..p][..k] == ms[..k] && ms[..p][k] == ms[k];
      } else {
        var rest := ms[p..q];
        assert rest[..k - p] == ms[p..k] && rest[k - p] == ms[k];
        PassesAtFirst(c, book, ms, p, n, k);
      }
    }
  }

  // ---- Which messages make it into the ledger ----

  /** The message is one whose bid this book takes: it parses, passes validation, is on time,
      and its amount is positive. Whether its key is new is left aside. */
  predicate Acceptable(c: Config, book: Book, m: Message) {
    && Request(c, book, m).Some?
    && var (bid, at) := Request(c, book, m).value;
       at < book[bid.auctionId].close && bid.amount > 0
  }

  /** The message reads as a bid on this consumer's auction. */
  predicate Readable(c: Config, m: Message) {
    Parsed(m).Ok? && ToBid(c, Parsed(m).value).Ok?
  }

  function BidAt(c: Config, m: Message): Bid
    requires Readable(c, m)
  {
    ToBid(c, Parsed(m).value).value.0
  }

  /** The row is what the message's own fields say: auction, bidder and key as they are parsed, the
      number that the amount spells, the message's identifier, and the correlation text. */
  ghost predicate RowIs(c: Config, m: Message, bid: Bid) {
    && m.id != "" && bid.streamId == m.id
    && "auction_id" in m.fields && m.fields["auction_id"].text == c.auctionId
    && c.parseUuid(m.fields["auction_id"].text) == Some(bid.auctionId)
    && "bidder_id" in m.fields && c.parseUuid(m.fields["bidder_id"].text) == Some(bid.bidderId)
    && "amount" in m.fields && Decimal.Spells(m.fields["amount"].text, bid.amount)
    && "idempotency_key" in m.fields
    && c.parseUuid(m.fields["idempotency_key"].text) == Some(bid.key)
    && "correlation_id" in m.fields && bid.correlationId == m.fields["correlation_id"].text
  }

  /** Which bid a message is, field by field, and at which time. */
  lemma ToBidExact(c: Config, m: Message, bid: Bid, at: Time)
    ensures Parsed(m).Ok? && ToBid(c, Parsed(m).value) == Ok((bid, at)) <==>
              RowIs(c, m, bid) && StreamEntryTime(m.id) == Ok(at)
  {
    hide ParseMessage, StreamEntryTime;
    if Parsed(m).Ok? {
      ParseMessageExact(m.id, m.fields, Parsed(m).value);
    }
    if RowIs(c, m, bid) {
      var e := StreamEntry(m.id, BidIngress(m.fields["auction_id"].text, m.fields["bidder_id"].text,
        bid.amount, m.fields["idempotency_key"].text, m.fields["correlation_id"].text));
      ParseMessageExact(m.id, m.fields, e);
    }
  }

  /** Why a message that parses is not handed to the ledger, in the order of the checks. */
  lemma ToBidErrors(c: Config, e: StreamEntry, error: IdError)
    ensures var mine := e.bid.auctionId == c.auctionId;
            var auction, bidder, key := c.parseUuid(e.bid.auctionId).Some?, c.parseUuid(e.bid.bidderId).Some?,
              c.parseUuid(e.bid.idempotencyKey).Some?;
            && (ToBid(c, e) == Err(WrongAuction) <==> !mine)
            && (ToBid(c, e) == Err(BadAuctionId) <==> mine && !auction)
            && (ToBid(c, e) == Err(BadBidderId) <==> mine && auction && !bidder)
            && (ToBid(c, e) == Err(BadIdempotencyKey) <==> mine && auction && bidder && !key)
            && (ToBid(c, e) == Err(BadStreamId(error)) <==>
                  mine && auction && bidder && key && StreamEntryTime(e.id) == Err(error))
  {
  }

  lemma BidAtExact(c: Config, m: Message, bid: Bid)
    ensures Readable(c, m) && BidAt(c, m) == bid <==> RowIs(c, m, bid) && StreamEntryTime(m.id).Ok?
  {
    hide RowIs, ToBid, Parsed, StreamEntryTime;
    if Readable(c, m) {
      ToBidExact(c, m, bid, ToBid(c, Parsed(m).value).value.1);
    }
    if StreamEntryTime(m.id).Ok? {
      ToBidExact(c, m, bid, StreamEntryTime(m.id).value);
    }
  }

  /** The message reads as a bid whose key is in the ledger. */
  predicate InBook(c: Config, book: Book, m: Message) {
    Readable(c, m) && HoldsKey(book, BidAt(c, m))
  }

  function BidsAt(c: Config, ms: seq<Message>, ks: seq<nat>): (bids: seq<Bid>)
    requires forall k :: k in ks ==> k < |ms| && Readable(c, ms[k])
    ensures |bids| == |ks|
    ensures forall i :: 0 <= i < |ks| ==> ks[i] in ks && bids[i] == BidAt(c, ms[ks[i]])
  {
    seq(|ks|, i requires 0 <= i < |ks| => assert ks[i] in ks; BidAt(c, ms[ks[i]]))
  }

  /** Positions of the messages that are kept: acceptable when their turn comes, with a key that
      no kept message before them has. */
  function Kept(c: Config, book: Book, ms: seq<Message>): (ks: seq<nat>)
    ensures forall k :: k in ks ==> k < |ms| && Readable(c, ms[k])
  {
    if ms == [] then []
    else
      var n := |ms| - 1;
      var before := Kept(c, book, ms[..n]);
      if Acceptable(c, SettleAll(c, book, ms[..n]), ms[n])
         && !HasKey(BidsAt(c, ms[..n], before), BidAt(c, ms[n]).key)
      then before + [n] else before
  }

  /** One message adds its bid, and no other, exactly when it is acceptable and its key new. */
  lemma SettleAdds(c: Config, book: Book, m: Message, a: Uuid)
    requires c.parseUuid(c.auctionId) == Some(a) && a in book
    ensures Settle(c, book, m).Keys == book.Keys
    ensures Settle(c, book, m)[a].bids == book[a].bids +
              if Acceptable(c, book, m) && !HasKey(book[a].bids, BidAt(c, m).key)
              then [BidAt(c, m)] else []
  {
    if Request(c, book, m).Some? {
      var (bid, at) := Request(c, book, m).value;
      assert bid == BidAt(c, m) && bid.auctionId == a;
    }
  }

  lemma BidsAtPrefix(c: Config, ms: seq<Message>, n: nat, ks: seq<nat>)
    requires n <= |ms| && forall k :: k in ks ==> k < n && Readable(c, ms[k])
    ensures forall k :: k in ks ==> Readable(c, ms[..n][k])
    ensures BidsAt(c, ms[..n], ks) == BidsAt(c, ms, ks)
  {
    hide Readable, BidAt;
    forall k | k in ks ensures ms[..n][k] == ms[k] {
    }
  }

  lemma BidsAtMore(c: Config, ms: seq<Message>, ks: seq<nat>, n: nat)
    requires n < |ms| && Readable(c, ms[n]) && forall k :: k in ks ==> k < |ms| && Readable(c, ms[k])
    ensures forall k :: k in ks + [n] ==> k < |ms| && Readable(c, ms[k])
    ensures BidsAt(c, ms, ks + [n]) == BidsAt(c, ms, ks) + [BidAt(c, ms[n])]
  {
    hide Readable, BidAt;
  }

  lemma IncreasingMore(ks: seq<nat>, n: nat)
    requires forall i, j :: 0 <= i < j < |ks| ==> ks[i] < ks[j]
    requires forall k :: k in ks ==> k < n
    ensures forall i, j :: 0 <= i < j < |ks + [n]| ==> (ks + [n])[i] < (ks + [n])[j]
  {
    assert forall i :: 0 <= i < |ks| ==> ks[i] in ks;
  }

  /** The ledger that a stream leaves holds the first acceptable message of each key, in stream
      order, and nothing else. */
  lemma {:induction false} KeepsFirstAcceptable(c: Config, book: Book, ms: seq<Message>, a: Uuid)
    requires c.parseUuid(c.auctionId) == Some(a) && a in book && book[a].bids == []
    ensures SettleAll(c, book, ms).Keys == book.Keys
    ensures SettleAll(c, book, ms)[a].bids == BidsAt(c, ms, Kept(c, book, ms))
    ensures forall i, j :: 0 <= i < j < |Kept(c, book, ms)| ==>
              Kept(c, book, ms)[i] < Kept(c, book, ms)[j]
  {
    hide Settle, Acceptable, BidAt, Readable;
    if ms != [] {
      var n := |ms| - 1;
      var before := Kept(c, book, ms[..n]);
      KeepsFirstAcceptable(c, book, ms[..n], a);
      SettleAdds(c, SettleAll(c, book, ms[..n]), ms[n], a);
      forall k | k in before ensures Readable(c, ms[k]) {
        assert ms[..n][k] == ms[k];
      }
      BidsAtPrefix(c, ms, n, before);
      if Kept(c, book, ms) != before {
        BidsAtMore(c, ms, before, n);
        IncreasingMore(before, n);
      }
    }
  }

  /** Order matters: had the later of two messages that are both kept overtaken the earlier one,
      the ledger would be another. */
  lemma OvertakingShows(c: Config, book: Book, m: Message, n: Message, a: Uuid)
    requires c.parseUuid(c.auctionId) == Some(a) && a in book
    requires Acceptable(c, book, m) && !HasKey(book[a].bids, BidAt(c, m).key)
    requires var after := Settle(c, book, m);
             Acceptable(c, after, n) && !HasKey(after[a].bids, BidAt(c, n).key)
    ensures Settle(c, Settle(c, book, n), m) != Settle(c, Settle(c, book, m), n)
  {
    hide Settle, HasKey, Parsed, ToBid, Append;
    SettleAdds(c, book, m, a);
    SettleAdds(c, Settle(c, book, m), n, a);
    SettleAdds(c, book, n, a);
    SettleAdds(c, Settle(c, book, n), m, a);
    var b := book[a].bids;
    assert (b + [BidAt(c, m)])[|b|] == BidAt(c, m);
    assert BidAt(c, n).key != BidAt(c, m).key by {
      assert HasKey(b + [BidAt(c, m)], BidAt(c, m).key) by {
        LastHasKey(b, BidAt(c, m));
      }
    }
    var inOrder, swapped := Settle(c, Settle(c, book, m), n)[a].bids, Settle(c, Settle(c, book, n), m)[a].bids;
    assert inOrder[|b|] == BidAt(c, m) && |inOrder| == |b| + 2;
    if Settle(c, book, n)[a].bids != b {
      assert swapped[|b|] == BidAt(c, n);
    }
  }

  lemma LastHasKey(bids: seq<Bid>, bid: Bid)
    ensures HasKey(bids + [bid], bid.key)
  {
    assert (bids + [bid])[|bids|] == bid;
  }

  /** What a producer sends is, field by field, the row that the stream puts into the ledger. */
  lemma SentIsKept(c: Config, book: Book, ms: seq<Message>, a: Uuid, sent: BidIngress, i: nat, j: nat)
    requires c.parseUuid(c.auctionId) == Some(a) && a in book && book[a].bids == []
    requires i < |ms| && IngressFields(sent).Ok? && ms[i].fields == IngressFields(sent).value
    requires j < |Kept(c, book, ms)| && Kept(c, book, ms)[j] == i
    ensures a in SettleAll(c, book, ms) && j < |SettleAll(c, book, ms)[a].bids|
    ensures var row := SettleAll(c, book, ms)[a].bids[j];
            && sent.auctionId == c.auctionId && row.auctionId == a
            && c.parseUuid(sent.bidderId) == Some(row.bidderId)
            && row.amount == sent.amount
            && c.parseUuid(sent.idempotencyKey) == Some(row.key)
            && row.streamId == ms[i].id && row.correlationId == sent.correlationId
  {
    hide SettleAll, Kept, ToBid, IngressFields, StreamEntryTime;
    KeepsFirstAcceptable(c, book, ms, a);
    assert i in Kept(c, book, ms);
    var row := BidAt(c, ms[i]);
    BidAtExact(c, ms[i], row);
    ParsedIsSent(ms[i], sent);
    ParseMessageExact(ms[i].id, ms[i].fields, StreamEntry(ms[i].id, sent));
    Decimal.ParseIntExact(ms[i].fields["amount"].text, row.amount);
    Decimal.ParseIntExact(ms[i].fields["amount"].text, sent.amount);
  }

  lemma ParsedIsSent(m: Message, sent: BidIngress)
    requires m.id != "" && IngressFields(sent).Ok? && m.fields == IngressFields(sent).value
    ensures Parsed(m) == Ok(StreamEntry(m.id, sent))
  {
    hide ParseMessage, IngressFields;
    IngressRoundTrip(sent, m.id, map[]);
    assert map[] + m.fields == m.fields;
  }

  // ---- Closing ----

  /** Messages come with identifiers that Redis issued in order. */
  ghost predicate InIssueOrder(ms: seq<Message>) {
    exists ids: seq<(nat, nat)> :: IssuedAs(ms, ids)
  }

  /** The messages carry just these identifiers, which rise. */
  predicate IssuedAs(ms: seq<Message>, ids: seq<(nat, nat)>) {
    && |ids| == |ms|
    && (forall i :: 0 <= i < |ids| ==>
          ids[i].0 <= MAX_INT64 && ids[i].1 <= MAX_UINT64 && ms[i].id == Format(ids[i].0, ids[i].1))
    && (forall i, j :: 0 <= i < j < |ids| ==>
          IdBefore(ids[i].0, ids[i].1, ids[j].0, ids[j].1))
  }

  /** The identifier that XADD assigns after `last` when the clock reads `now`. */
  function NextId(last: (nat, nat), now: nat): (id: Option<(nat, nat)>)
    ensures id.Some? ==> IdBefore(last.0, last.1, id.value.0, id.value.1)
    ensures id.Some? && now <= MAX_INT64 ==> id.value.0 <= MAX_INT64 && id.value.1 <= MAX_UINT64
    ensures id.Some? ==> now <= id.value.0
  {
    if now > last.0 then Some((now, 0))
    else if last.1 < MAX_UINT64 && last.0 <= MAX_INT64 then Some((last.0, last.1 + 1))
    else if last.0 < MAX_INT64 then Some((last.0 + 1, 0))
    else None
  }

  /** It is the least one after the last one that is not before the clock reading. */
  lemma NextIdLeast(last: (nat, nat), now: nat, ms: nat, seqNo: nat)
    requires IdBefore(last.0, last.1, ms, seqNo) && now <= ms <= MAX_INT64 && seqNo <= MAX_UINT64
    ensures NextId(last, now).Some?
    ensures var id := NextId(last, now).value; !IdBefore(ms, seqNo, id.0, id.1)
  {
  }

  lemma IssuedMore(ms: seq<Message>, ids: seq<(nat, nat)>, m: Message, id: (nat, nat))
    requires IssuedAs(ms, ids) && id.0 <= MAX_INT64 && id.1 <= MAX_UINT64 && m.id == Format(id.0, id.1)
    requires ids != [] ==> IdBefore(ids[|ids| - 1].0, ids[|ids| - 1].1, id.0, id.1)
    ensures IssuedAs(ms + [m], ids + [id])
  {
    hide Format;
    var more := ids + [id];
    forall i, j | 0 <= i < j < |more| ensures IdBefore(more[i].0, more[i].1, more[j].0, more[j].1) {
      if j == |ids| && i < |ids| - 1 {
        assert IdBefore(ids[i].0, ids[i].1, ids[|ids| - 1].0, ids[|ids| - 1].1);
      }
    }
  }

  lemma TimesInOrder(ms: seq<Message>, i: nat, j: nat)
    requires InIssueOrder(ms) && i < j < |ms|
    ensures StreamEntryTime(ms[i].id).Ok? && StreamEntryTime(ms[j].id).Ok?
    ensures StreamEntryTime(ms[i].id).value <= StreamEntryTime(ms[j].id).value
  {
    var ids: seq<(nat, nat)> :| IssuedAs(ms, ids);
    TimesFollowIds(ids[i].0, ids[i].1, ids[j].0, ids[j].1);
  }

  /** The message arrives at or after the close that the book shows. */
  predicate Late(book: Book, m: Message, a: Uuid) {
    a in book && StreamEntryTime(m.id).Ok? && StreamEntryTime(m.id).value >= book[a].close
  }

  lemma LateChangesNothing(c: Config, book: Book, m: Message, a: Uuid)
    requires c.parseUuid(c.auctionId) == Some(a) && Late(book, m, a)
    ensures Settle(c, book, m) == book
  {
  }

  /** Closing is final: once one message is late, no later message changes the ledger. */
  lemma {:induction false} ClosingIsFinal(c: Config, book: Book, ms: seq<Message>, a: Uuid, i: nat, j: nat)
    requires c.parseUuid(c.auctionId) == Some(a) && InIssueOrder(ms) && i < j <= |ms|
    requires var before := SettleAll(c, book, ms[..i]);
             a in before && StreamEntryTime(ms[i].id).Ok? && StreamEntryTime(ms[i].id).value >= before[a].close
    ensures SettleAll(c, book, ms[..j]) == SettleAll(c, book, ms[..i])
  {
    hide Settle, InIssueOrder, StreamEntryTime;
    assert ms[..j][..j - 1] == ms[..j - 1];
    if i + 1 < j {
      ClosingIsFinal(c, book, ms, a, i, j - 1);
      TimesInOrder(ms, i, j - 1);
    }
    LateChangesNothing(c, SettleAll(c, book, ms[..j - 1]), ms[j - 1], a);
  }
}
