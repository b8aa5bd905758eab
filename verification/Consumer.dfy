/** The ledger consumer: commit to PostgreSQL, then acknowledge to Redis.

    Every call to the validator, the ledger or Redis may fail, before or after taking effect, so a
    method that returns early is also a process that dies there. */
module Consumer {
  import opened Domain
  import opened Ledger
  import opened Transactions
  import opened Refinement
  import opened Settlement
  import opened Streams
  import opened Positions
  import opened Recovery
  import opened Prices
  import opened Ledgers
  import StreamFields
  import opened StreamId

  /** Why a message may be acknowledged: the hook turned it away, or its key is in the ledger. */
  predicate Discharged(c: Config, judged: Book, book: Book, m: Message) {
    && Parsed(m).Ok?
    && (!Accepts(c, judged, Parsed(m).value) || InBook(c, book, m))
  }

  /** The call left a bid with this key at the place that it names, and added this very bid exactly
      when no bid had the key. */
  predicate Recorded(before: Book, after: Book, bid: Bid, r: Response) {
    && bid.auctionId in before && bid.auctionId in after
    && after == before[bid.auctionId := after[bid.auctionId]]
    && var bids, bids' := before[bid.auctionId].bids, after[bid.auctionId].bids;
       && 1 <= r.seqNo <= |bids'| && bids'[r.seqNo - 1].key == bid.key
       && (r.inserted <==> forall i :: 0 <= i < |bids| ==> bids[i].key != bid.key)
       && bids' == bids + (if r.inserted then [bid] else [])
  }

  lemma OutcomeRecorded(c: Config, m: Message, before: Db, after: Db, bid: Bid, at: Time, r: Response)
    requires Parsed(m).Ok? && ToBid(c, Parsed(m).value) == Ok((bid, at))
    requires Outcome(before, after, AntiSnipe, bid, at, r)
    ensures RowIs(c, m, bid) && Recorded(BookOf(before), BookOf(after), bid, r)
  {
    hide ToBid, Parsed, Append, RowIs;
    ToBidExact(c, m, bid, at);
    AppendExact(AntiSnipe, AuctionOf(before.auctions[bid.auctionId]), bid, at);
  }

  lemma OutcomeHasKey(c: Config, m: Message, before: Db, after: Db, bid: Bid, at: Time, r: Response)
    requires Parsed(m).Ok? && ToBid(c, Parsed(m).value) == Ok((bid, at))
    requires Outcome(before, after, AntiSnipe, bid, at, r)
    ensures InBook(c, BookOf(after), m)
  {
    hide ToBid, Parsed;
    var a := AuctionOf(before.auctions[bid.auctionId]);
    if !HasKey(a.bids, bid.key) {
      assert Append(AntiSnipe, a, bid, at).0.bids[|a.bids|] == bid;
    }
  }

  lemma AnswerIsAnswered(c: Config, m: Message, before: Db, after: Db, bid: Bid, at: Time, r: Response)
    requires Parsed(m).Ok? && ToBid(c, Parsed(m).value) == Ok((bid, at))
    requires Outcome(before, after, AntiSnipe, bid, at, r)
    ensures Answered(c, BookOf(before), m)
  {
    hide ToBid, Parsed, Append;
  }

  /** A refusal of the ledger is one of the atomic append; a time read from an identifier is never
      the zero time. */
  lemma RefusalIsNotAnswered(c: Config, m: Message, before: Db, bid: Bid, at: Time, e: LedgerError)
    requires Parsed(m).Ok? && ToBid(c, Parsed(m).value) == Ok((bid, at))
    requires e.Refused? ==> RefusedBy(before, AntiSnipe, bid, at, e.refusal)
    requires e.SubmissionTimeRequired? ==> at == ZERO_TIME
    ensures !e.Failed? && !e.CommitFailed? ==> !Answered(c, BookOf(before), m)
  {
    hide Parsed, Append;
    if e.Refused? && bid.auctionId in before.auctions {
      assert BookOf(before)[bid.auctionId] == AuctionOf(before.auctions[bid.auctionId]);
    }
  }

  /** A committed append is the message's effect on the book. */
  lemma OutcomeSettles(c: Config, m: Message, before: Db, after: Db, bid: Bid, at: Time, r: Response)
    requires Parsed(m).Ok? && Accepts(c, BookOf(before), Parsed(m).value)
    requires ToBid(c, Parsed(m).value) == Ok((bid, at))
    requires Outcome(before, after, AntiSnipe, bid, at, r)
    ensures BookOf(after) == Settle(c, BookOf(before), m)
  {
    hide ToBid, Parsed, Append;
  }

  /** Why the ledger was not asked, or how it failed. */
  datatype PersistFailure = Unreadable(error: PersistError) | LedgerFailed(cause: LedgerError)

  /** One of the messages stops a consumer that meets it with this book. */
  ghost predicate StopsAt(c: Config, book: Book, ms: seq<Message>, positions: set<nat>) {
    exists i: nat :: i in positions && i < |ms| && !Passes(c, book, ms[i])
  }

  /** Since then every page was asked for with this size. */
  predicate CountsAre(before: seq<nat>, now: seq<nat>, size: int) {
    before <= now && forall k :: |before| <= k < |now| ==> now[k] == size
  }

  predicate Counted(before: seq<nat>, now: seq<nat>, size: nat) {
    now == before + [size]
  }

  lemma OneMoreCount(before: seq<nat>, now: seq<nat>, now': seq<nat>, size: nat)
    requires CountsAre(before, now, size) && Counted(now, now', size)
    ensures CountsAre(before, now', size)
  {
  }

  lemma NoCountYet(now: seq<nat>, size: int)
    ensures CountsAre(now, now, size)
  {
  }

  /** The entries have this owner, all others the one they had. */
  predicate OwnedNow(before: map<nat, Pending>, after: map<nat, Pending>, entries: seq<nat>, name: string) {
    forall i :: i in after && (i in entries || i in before) ==>
      after[i].owner == if i in entries then name else before[i].owner
  }

  lemma NotParsedStops(c: Config, book: Book, ms: seq<Message>, entries: seq<nat>)
    requires (forall i :: 0 <= i < |entries| ==> entries[i] < |ms|) && !AllParse(ms, entries)
    ensures StopsAt(c, book, ms, Elements(entries))
  {
    hide Parsed;
    var k: nat :| k < |entries| && Parsed(ms[entries[k]]).Err?;
    assert entries[k] in Elements(entries) && !Passes(c, book, ms[entries[k]]);
  }

  lemma StopsAtMore(c: Config, book: Book, ms: seq<Message>, some: set<nat>, more: set<nat>)
    requires StopsAt(c, book, ms, some) && some <= more
    ensures StopsAt(c, book, ms, more)
  {
    hide Passes;
  }

  class LedgerConsumer {
    const streams: StreamStore
    const ledger: LedgerStore
    const config: Config
    const group: string
    const name: string
    const batchSize: int
    const recoveryBatchSize: int
    const recoveryMinIdle: int
    /** Whether the hooks and the group's creation may fail, or the process may die. */
    const faulty: bool
    /** A history: the book and the acknowledged entries at the start, and since then the positions
        that have had their effect on the ledger, in that order. */
    ghost const origin: Book
    ghost const already: set<nat>
    ghost var log: seq<nat>

    constructor (streams: StreamStore, ledger: LedgerStore, config: Config, group: string,
                 name: string, batchSize: int, recoveryBatchSize: int, recoveryMinIdle: int, faulty: bool)
      requires streams.Valid() && ledger.Valid()
      ensures Valid() && log == [] && origin == BookOf(ledger.db) && already == streams.acked
      ensures this.streams == streams && this.ledger == ledger && this.config == config
      ensures this.group == group && this.name == name && this.batchSize == batchSize
      ensures this.recoveryBatchSize == recoveryBatchSize
      ensures this.recoveryMinIdle == recoveryMinIdle && this.faulty == faulty
    {
      this.streams, this.ledger, this.config := streams, ledger, config;
      this.group, this.name, this.batchSize := group, name, batchSize;
      this.recoveryBatchSize, this.recoveryMinIdle := recoveryBatchSize, recoveryMinIdle;
      this.faulty := faulty;
      this.origin, this.already, this.log := BookOf(ledger.db), streams.acked, [];
      new;
      NothingExplained(config, origin, streams.stream);
    }

    ghost predicate Reliable() {
      !streams.faulty && ledger.outage.Never? && !faulty
    }

    /** Nothing fails, and no message of the stream stops a consumer that settles it in order. */
    ghost predicate GoesOn()
      reads streams`stream
    {
      Reliable() && AllPass(config, origin, streams.stream)
    }

    predicate Configured() {
      config.auctionId != "" && group != "" && name != "" && batchSize > 0
    }

    ghost predicate Valid()
      reads this, streams, ledger
    {
      streams.Valid() && ledger.Valid() && Tracked()
    }

    /** The ledger is what the history makes of the first book, and every entry acknowledged since
        was turned away by the hook or answered by the ledger at its place in the history. */
    ghost predicate Tracked()
      reads this`log, streams`stream, streams`acked, ledger
    {
      && Explained(config, origin, streams.stream, log, CommittedBook())
      && forall i :: i in streams.acked ==>
           i in already || Justified(config, origin, streams.stream, log, i)
    }

    ghost function CommittedBook(): Book
      reads ledger
    {
      BookOf(ledger.db)
    }

    function MinIdle(): nat {
      if recoveryMinIdle <= 0 then 30000 else recoveryMinIdle
    }

    /** Settled in identifier order: exactly the first `p` messages are acknowledged, they all
        passed, and the ledger is what the first `n` of the stream make of the first book, where at
        most the first pending one is committed already. */
    ghost predicate InOrder(p: nat, n: nat)
      reads streams`stream, streams`delivered, streams`acked, ledger
    {
      && n <= |streams.stream|
      && p <= n <= p + 1 && n <= streams.delivered
      && streams.acked == Below(p)
      && CommittedBook() == SettleAll(config, origin, streams.stream[..n])
      && AllPass(config, origin, streams.stream[..p])
    }

    /** Runs the validation hook. */
    method ValidateEntry(e: StreamFields.StreamEntry) returns (accepted: bool, ok: bool)
      requires config.validate.Some?
      ensures ok ==> accepted == Accepts(config, CommittedBook(), e)
      ensures !ok ==> faulty
    {
      accepted := config.validate.value(BookOf(ledger.db), e);
      var fails := MayFail(faulty);
      ok := !fails;
    }

    /** Derives the bid and calls the ledger. An error leaves the ledger as it was, unless it is the
        commit that failed. */
    method PersistEntry(m: Message) returns (r: Result<Response, PersistFailure>)
      requires ledger.Valid() && Parsed(m).Ok? && Accepts(config, CommittedBook(), Parsed(m).value)
      modifies ledger
      ensures ledger.Valid()
      ensures r.Ok? ==> CommittedBook() == Settle(config, old(CommittedBook()), m)
                        && InBook(config, CommittedBook(), m)
      ensures r.Ok? ==> exists bid :: RowIs(config, m, bid)
                                      && Recorded(old(CommittedBook()), CommittedBook(), bid, r.value)
      ensures r.Ok? ==> Answered(config, old(CommittedBook()), m)
      ensures r.Err? && r != Err(LedgerFailed(CommitFailed)) ==> ledger.db == old(ledger.db)
      ensures ToBid(config, Parsed(m).value).Err? <==> r.Err? && r.error.Unreadable?
      ensures r.Err? && r.error.Unreadable? ==> ToBid(config, Parsed(m).value) == Err(r.error.error)
      ensures r == Err(LedgerFailed(CommitFailed)) ==>
                CommittedBook() == old(CommittedBook())
                || CommittedBook() == Settle(config, old(CommittedBook()), m)
      ensures Reliable() && Answered(config, old(CommittedBook()), m) ==> r.Ok?
    {
      hide Outcome, Settle, BookOf, TablesInv, RefusedBy, InBook, Answered, RowIs, Recorded;
      var request := ToBid(config, Parsed(m).value);
      if request.Err? {
        UnreadIsNotAnswered(m);
        return Err(Unreadable(request.error));
      }
      ghost var before := ledger.db;
      var (bid, at) := request.value;
      var response := ledger.AppendBidIdempotentWithAntiSnipe(bid, at);
      if answer :| Outcome(before, ledger.db, AntiSnipe, bid, at, answer) {
        OutcomeSettles(config, m, before, ledger.db, bid, at, answer);
        OutcomeHasKey(config, m, before, ledger.db, bid, at, answer);
      }
      if response.Err? {
        RefusalIsNotAnswered(config, m, before, bid, at, response.error);
        return Err(LedgerFailed(response.error));
      }
      AnswerIsAnswered(config, m, before, ledger.db, bid, at, response.value);
      OutcomeRecorded(config, m, before, ledger.db, bid, at, response.value);
      return Ok(response.value);
    }

    lemma UnreadIsNotAnswered(m: Message)
      requires Parsed(m).Ok? && ToBid(config, Parsed(m).value).Err?
      ensures !Answered(config, CommittedBook(), m)
    {
    }

    lemma RejectedChangesNothing(m: Message)
      requires Parsed(m).Ok? && !Accepts(config, CommittedBook(), Parsed(m).value)
      ensures Settle(config, CommittedBook(), m) == CommittedBook()
    {
    }

    /** Validates one entry and persists it. `settled` says that it has had its effect on the ledger,
        `done` that it may be acknowledged. */
    method SettleEntry(i: nat) returns (done: bool, ghost settled: bool)
      requires ledger.Valid() && i < |streams.stream| && Parsed(streams.stream[i]).Ok?
      modifies ledger
      ensures ledger.Valid()
      ensures done ==> settled && Passes(config, old(CommittedBook()), streams.stream[i])
      ensures done ==> Discharged(config, old(CommittedBook()), CommittedBook(), streams.stream[i])
      ensures Reliable() && Passes(config, old(CommittedBook()), streams.stream[i]) ==> done
      ensures CommittedBook() ==
                if settled then Settle(config, old(CommittedBook()), streams.stream[i])
                else old(CommittedBook())
    {
      hide Settle, TablesInv, InBook, Answered, BookOf;
      var m := streams.stream[i];
      ghost var book := CommittedBook();
      settled := false;
      var accepted, validated := true, true;
      if config.validate.Some? {
        accepted, validated := ValidateEntry(Parsed(m).value);
      }
      if !validated {
        // Rejection evidence may be missing; the entry stays pending.
        return false, settled;
      }
      if accepted {
        var r := PersistEntry(m);
        settled := CommittedBook() == Settle(config, book, m);
        // BeforeAck may fail as well.
        var fails := MayFail(faulty);
        return r.Ok? && !fails, settled;
      }
      RejectedChangesNothing(m);
      return true, true;
    }

    lemma TrackEntry(before: seq<nat>, book: Book, acked: set<nat>, i: nat, settled: bool, acks: bool)
      requires Explained(config, origin, streams.stream, before, book) && i < |streams.stream|
      requires forall j :: j in acked ==>
                 j in already || Justified(config, origin, streams.stream, before, j)
      requires CommittedBook() == if settled then Settle(config, book, streams.stream[i]) else book
      requires log == before + if settled then [i] else []
      requires streams.acked == if acks then acked + {i} else acked
      requires acks ==> settled && Passes(config, book, streams.stream[i])
      ensures Tracked()
    {
      hide Explained, Justified, Settle, Passes, BookOf;
      if settled {
        ExplainedMore(config, origin, streams.stream, before, book, i);
        forall j | j in acked && j !in already
          ensures Justified(config, origin, streams.stream, log, j)
        {
          JustifiedMore(config, origin, streams.stream, before, i, j);
        }
        if acks {
          JustifiedNow(config, origin, streams.stream, before, book, i);
        }
      } else {
        assert log == before;
      }
    }

    /** One entry: settle it, then acknowledge it. `acks` says that it is acknowledged, `ok` that
        the consumer goes on. */
    method ProcessEntry(i: nat) returns (ok: bool, ghost settled: bool, ghost acks: bool)
      requires Valid() && i < streams.delivered && Parsed(streams.stream[i]).Ok?
      modifies this`log, streams`pending, streams`acked, ledger
      ensures Valid() && log == old(log) + if settled then [i] else []
      ensures (ok ==> acks) && (acks ==> settled)
      ensures acks ==> Discharged(config, old(CommittedBook()), CommittedBook(), streams.stream[i])
      ensures acks ==> Passes(config, old(CommittedBook()), streams.stream[i])
      ensures Reliable() && Passes(config, old(CommittedBook()), streams.stream[i]) ==> ok
      ensures CommittedBook() ==
                if settled then Settle(config, old(CommittedBook()), streams.stream[i])
                else old(CommittedBook())
      ensures streams.acked == if acks then old(streams.acked) + {i} else old(streams.acked)
      ensures streams.pending == if acks then old(streams.pending) - {i} else old(streams.pending)
    {
      hide Settle, TablesInv, Discharged, Explained, Justified, BookOf, Parsed, Passes;
      ghost var before, book, acked := log, CommittedBook(), streams.acked;
      var done;
      done, settled := SettleEntry(i);
      ok, acks := false, false;
      if done {
        ok := streams.Ack(i);
        acks := ok || streams.pending != old(streams.pending) || streams.acked != old(streams.acked);
      }
      if settled {
        log := log + [i];
      }
      TrackEntry(before, book, acked, i, settled, acks);
    }

    /** `processed` is the count that the caller learns. Of the entries, the first `settled` have
        had their effect on the ledger and the first `acks` are acknowledged: never one that is
        not settled or did not pass. */
    method ProcessEntries(entries: seq<nat>)
      returns (processed: nat, ok: bool, ghost settled: nat, ghost acks: nat)
      requires Valid() && AllParse(streams.stream, entries)
      requires forall i :: i in entries ==> i < streams.delivered
      modifies this`log, streams`pending, streams`acked, ledger
      ensures Valid()
      ensures processed <= acks <= settled <= processed + 1 && settled <= |entries|
      ensures log == old(log) + entries[..settled]
      ensures ok <==> processed == |entries|
      ensures streams.acked == old(streams.acked) + Elements(entries[..acks])
      ensures streams.pending == old(streams.pending) - Elements(entries[..acks])
      ensures Folds(config, old(CommittedBook()), CommittedBook(), streams.stream, entries, settled)
      ensures FirstPass(config, old(CommittedBook()), streams.stream, entries, acks)
      ensures Reliable() && FirstPass(config, old(CommittedBook()), streams.stream, entries, |entries|) ==> ok
      ensures Reliable() && !ok ==> StopsAt(config, CommittedBook(), streams.stream, Elements(entries))
    {
      hide Settle, TablesInv, BookOf, Parsed, SettleAll, Passes, AllPass, Discharged, Tracked, StopsAt,
           StreamStore.Valid, Elements, MessagesAt;
      ghost var book := CommittedBook();
      ghost var ms := streams.stream;
      processed := 0;
      TakeNone(config, book, ms, entries);
      NonePass(config, book, ms, entries);
      assert entries[..|entries|] == entries;
      while processed < |entries|
        invariant Valid() && streams.stream == ms && streams.delivered == old(streams.delivered)
        invariant processed <= |entries| && log == old(log) + entries[..processed]
        invariant streams.acked == old(streams.acked) + Elements(entries[..processed])
        invariant streams.pending == old(streams.pending) - Elements(entries[..processed])
        invariant CommittedBook() == SettleAll(config, book, MessagesAt(ms, entries[..processed]))
        invariant AllPass(config, book, MessagesAt(ms, entries[..processed]))
      {
        assert entries[processed] in entries;
        TakeOneMore(config, book, ms, entries, processed);
        MessagesMore(config, book, ms, entries, processed);
        assert entries[..processed + 1] == entries[..processed] + [entries[processed]];
        ghost var now := CommittedBook();
        var goesOn, settles, acknowledges := ProcessEntry(entries[processed]);
        settled := if settles then processed + 1 else processed;
        acks := if acknowledges then processed + 1 else processed;
        if !goesOn {
          WhyStopped(entries, processed, now, book);
          return processed, false, settled, acks;
        }
        processed := processed + 1;
      }
      ok, settled, acks := true, processed, processed;
    }

    /** Without faults only an entry that does not pass stops the loop, and it has no effect. */
    lemma WhyStopped(entries: seq<nat>, k: nat, now: Book, book: Book)
      requires (forall i :: 0 <= i < |entries| ==> entries[i] < |streams.stream|) && k < |entries|
      requires now == SettleAll(config, book, MessagesAt(streams.stream, entries[..k]))
      requires CommittedBook() == now || CommittedBook() == Settle(config, now, streams.stream[entries[k]])
      ensures !Passes(config, now, streams.stream[entries[k]]) ==>
                && StopsAt(config, CommittedBook(), streams.stream, Elements(entries))
                && !AllPass(config, book, MessagesAt(streams.stream, entries))
    {
      hide Passes, Settle, SettleAll, BookOf, AllPass;
      var m := streams.stream[entries[k]];
      if !Passes(config, now, m) {
        StopsWithoutEffect(config, now, m);
        assert entries[k] in Elements(entries) && !Passes(config, CommittedBook(), m);
        if AllPass(config, book, MessagesAt(streams.stream, entries)) {
          MessagesPrefix(config, book, streams.stream, entries, k + 1);
          MessagesMore(config, book, streams.stream, entries, k);
        }
      }
    }

    method EnsureGroup() returns (ok: bool)
      ensures ok ==> config.auctionId != "" && group != "" && name != "" && batchSize > 0
      ensures Reliable() && config.auctionId != "" && group != "" && name != "" && batchSize > 0 ==> ok
    {
      if config.auctionId == "" || group == "" || name == "" || batchSize <= 0 {
        return false;
      }
      // BUSYGROUP, for a group that exists already, counts as success.
      var fails := MayFail(faulty);
      ok := !fails;
    }

    /** `ProcessEntries`, and what it means for the order when the entries are those from `p` to `q`
        and all before `p` are acknowledged. */
    method ProcessInOrder(entries: seq<nat>, ghost ordered: bool, ghost p: nat, ghost n: nat, ghost q: nat)
      returns (processed: nat, ok: bool, ghost settled: nat, ghost acks: nat, ghost p': nat, ghost n': nat)
      requires Valid() && AllParse(streams.stream, entries)
      requires forall i :: i in entries ==> i < streams.delivered
      requires ordered ==> InOrder(p, n) && p <= q <= streams.delivered && entries == Range(p, q)
      modifies this`log, streams`pending, streams`acked, ledger
      ensures Valid()
      ensures processed <= acks <= settled <= |entries| && (ok <==> processed == |entries|)
      ensures log == old(log) + entries[..settled]
      ensures streams.acked == old(streams.acked) + Elements(entries[..acks])
      ensures streams.pending == old(streams.pending) - Elements(entries[..acks])
      ensures ok ==> log == old(log) + entries
      ensures ok ==> streams.acked == old(streams.acked) + Elements(entries)
      ensures ok ==> streams.pending == old(streams.pending) - Elements(entries)
      ensures ordered ==> InOrder(p', n') && (ok ==> p' == q)
      ensures ordered && GoesOn() ==> ok
      ensures Reliable() && !ok ==> StopsAt(config, CommittedBook(), streams.stream, Elements(entries))
    {
      hide SettleAll, TablesInv, BookOf, Parsed, Elements, AllPass, AllParse, StreamStore.Valid, Tracked,
           StopsAt;
      DeliveredInStream();
      assert entries[..|entries|] == entries;
      if ordered && GoesOn() {
        PassesInOrder(config, origin, streams.stream, p, n, q);
      }
      processed, ok, settled, acks := ProcessEntries(entries);
      assert ok ==> entries[..acks] == entries && entries[..settled] == entries;
      p', n' := p, n;
      if ordered {
        RangeSettles(config, origin, streams.stream, p, n, q, settled, acks);
        RangePasses(config, origin, streams.stream, p, n, q, acks);
        n' := if n <= p + settled then p + settled else n;
        p' := p + acks;
      }
    }

    /** Claims a page. After a run in order, with every pending entry eligible, the page is the
        messages from the first unacknowledged one to where the scan stopped. */
    method ClaimPage(start: nat, size: nat, ghost ordered: bool, ghost p: nat, ghost n: nat)
      returns (ok: bool, entries: seq<nat>, next: Option<nat>)
      requires Valid() && size > 0
      requires ordered ==> InOrder(p, n) && streams.AllIdle(MinIdle()) && start <= p
      modifies streams`pending, streams`counts
      ensures Counted(old(streams.counts), streams.counts, size)
      ensures Valid()
      ensures Claimed(old(streams.pending), streams.pending, MinIdle(), start, next, entries, streams.still)
      ensures OwnedNow(old(streams.pending), streams.pending, entries, name)
      ensures |entries| <= size && forall i :: i in entries ==> i < streams.delivered
      ensures next.Some? ==> next.value < streams.delivered
      ensures ok ==> AllParse(streams.stream, entries)
      ensures ordered ==> InOrder(p, n)
      ensures var stop := if next.Some? then next.value else streams.delivered;
              ordered ==> p <= stop <= streams.delivered && entries == Range(p, stop)
      ensures ordered && GoesOn() ==> ok
      ensures Reliable() && !ok ==> StopsAt(config, CommittedBook(), streams.stream, Elements(entries))
    {
      hide TablesInv, BookOf, Parsed, AllParse, SettleAll, AllPass, Tracked, StopsAt, Claimed, Eligible,
           StreamStore.Valid, Range;
      ghost var pending := streams.pending;
      streams.Conserves();
      ok, entries, next := streams.AutoClaimPending(name, MinIdle(), start, size);
      DeliveredInStream();
      if ordered {
        PageRange(pending, streams.pending, streams.acked, streams.delivered, p, MinIdle(), start, next,
                  entries, streams.still);
        if GoesOn() {
          PassParses(config, origin, streams.stream, p, if next.Some? then next.value else streams.delivered);
        }
      }
      NextDelivered(pending, streams.pending, start, next, entries);
      if Reliable() && !ok {
        assert forall k :: 0 <= k < |entries| ==> entries[k] in entries;
        NotParsedStops(config, CommittedBook(), streams.stream, entries);
      }
    }

    lemma NextDelivered(before: map<nat, Pending>, after: map<nat, Pending>, start: nat,
                        next: Option<nat>, entries: seq<nat>)
      requires Claimed(before, after, MinIdle(), start, next, entries, streams.still)
      requires before.Keys <= Below(streams.delivered)
      ensures next.Some? ==> next.value < streams.delivered
    {
    }

    /** Processes a claimed page, in the order of the page; `before` is the pending list before the
        claim. */
    method SettlePage(entries: seq<nat>, ghost before: map<nat, Pending>, start: nat, next: Option<nat>,
                      ghost ordered: bool, ghost p: nat, ghost n: nat)
      returns (processed: nat, ok: bool, ghost settled: nat, ghost p': nat, ghost n': nat)
      requires Valid() && AllParse(streams.stream, entries) && before.Keys !! streams.acked
      requires forall i :: i in entries ==> i < streams.delivered
      requires Claimed(before, streams.pending, MinIdle(), start, next, entries, streams.still)
      requires var stop := if next.Some? then next.value else streams.delivered;
               ordered ==> InOrder(p, n) && p <= stop <= streams.delivered && entries == Range(p, stop)
      modifies this`log, streams`pending, streams`acked, ledger
      ensures Valid()
      ensures streams.pending.Keys <= before.Keys <= streams.pending.Keys + streams.acked
      ensures old(streams.acked) <= streams.acked
      ensures settled <= |entries| && log == old(log) + entries[..settled]
      ensures ok ==> log == old(log) + entries
      ensures ok ==> streams.acked == old(streams.acked) + Elements(entries)
      ensures ok ==> PageDone(before, streams.pending, streams.acked, MinIdle(), start, next, streams.still)
      ensures ok ==> |streams.acked| == |old(streams.acked)| + processed
      ensures ordered ==> InOrder(p', n')
      ensures ordered && ok ==> p' == if next.Some? then next.value else streams.delivered
      ensures ordered && GoesOn() ==> ok
      ensures Reliable() && !ok ==> StopsAt(config, CommittedBook(), streams.stream, Elements(entries))
    {
      hide GoesOn, InOrder, TablesInv, BookOf, AllParse, Claimed, PageDone, StreamStore.Valid, Range,
           Elements, Tracked, StopsAt;
      ghost var claimed, acked := streams.pending, streams.acked;
      ClaimKeeps(before, claimed, MinIdle(), start, next, entries, streams.still);
      ghost var acks;
      processed, ok, settled, acks, p', n' := ProcessInOrder(entries, ordered, p, n,
        if next.Some? then next.value else streams.delivered);
      PageKeys(before, claimed, acked, Elements(entries[..acks]));
      if ok {
        PageIsDone(before, claimed, streams.pending, acked, MinIdle(), start, next, entries, streams.still);
      }
    }

    /** One page of the recovery loop: claim from `start` on, then process what was claimed. */
    method RecoverPage(start: nat, size: nat, ghost ordered: bool, ghost p: nat, ghost n: nat)
      returns (processed: nat, ok: bool, next: Option<nat>, ghost claims: seq<nat>, ghost settled: nat,
               ghost p': nat, ghost n': nat)
      requires Valid() && size > 0
      requires ordered ==> InOrder(p, n) && streams.AllIdle(MinIdle()) && start <= p
      modifies this`log, streams`pending, streams`acked, streams`counts, ledger
      ensures Counted(old(streams.counts), streams.counts, size)
      ensures Valid()
      ensures streams.pending.Keys <= old(streams.pending).Keys <= streams.pending.Keys + streams.acked
      ensures old(streams.acked) <= streams.acked
      ensures next.Some? ==> next.value < streams.delivered
      ensures PageOf(old(streams.pending), claims, MinIdle(), start, next, streams.still)
      ensures settled <= |claims| <= size && log == old(log) + claims[..settled]
      ensures ok ==> log == old(log) + claims && streams.acked == old(streams.acked) + Elements(claims)
      ensures ok ==> PageDone(old(streams.pending), streams.pending, streams.acked,
                              MinIdle(), start, next, streams.still)
      ensures ok ==> |streams.acked| == |old(streams.acked)| + processed
      ensures ordered ==> InOrder(p', n')
      ensures ordered && ok ==> p' == if next.Some? then next.value else streams.delivered
      ensures ordered && GoesOn() ==> ok
      ensures Reliable() && !ok ==> StopsAt(config, CommittedBook(), streams.stream, Elements(claims))
    {
      hide GoesOn, InOrder, TablesInv, BookOf, AllParse, Claimed, Eligible, PageDone, StreamStore.Valid,
           Range, Elements, Tracked, StopsAt, PageOf, OwnedNow, Counted;
      NotBoth();
      processed, settled, p', n' := 0, 0, p, n;
      ghost var pending := streams.pending;
      ok, claims, next := false, [], None;
      var claimed, entries, stop := ClaimPage(start, size, ordered, p, n);
      claims, next := entries, stop;
      ClaimKeeps(pending, streams.pending, MinIdle(), start, next, entries, streams.still);
      if claimed {
        processed, ok, settled, p', n' := SettlePage(entries, pending, start, next, ordered, p, n);
      } else {
        NoneSettled(log, claims);
      }
    }

    lemma NoneSettled(log: seq<nat>, claims: seq<nat>)
      ensures log + claims[..0] == log
    {
    }

    lemma NotBoth()
      requires streams.Valid()
      ensures streams.pending.Keys !! streams.acked
    {
    }

    /** Claims and processes pending entries until the scan reaches the end of the list.

        What is settled is settled in the order of the claims, which is the order of the stream. On
        success every entry that was idle long enough is acknowledged, when time stands still no
        other one, and the count is the number of acknowledgements. Without faults only an entry
        that does not pass stops it. `ordered` adds what holds when the group was settled in order
        and all pending entries are eligible: then order is kept wherever the call stops, and on
        success nothing is left pending. */
    method RecoverPending(ghost ordered: bool, ghost p: nat, ghost n: nat)
      returns (total: nat, ok: bool, ghost claimed: seq<nat>, ghost p': nat, ghost n': nat)
      requires Valid()
      requires ordered ==> InOrder(p, n) && streams.AllIdle(MinIdle())
      modifies this`log, streams`pending, streams`acked, streams`counts, ledger
      ensures CountsAre(old(streams.counts), streams.counts,
                        if recoveryBatchSize > 0 then recoveryBatchSize else batchSize)
      ensures Valid()
      ensures streams.pending.Keys <= old(streams.pending).Keys
      ensures log == old(log) + claimed && Increasing(claimed)
      ensures Elements(claimed) <= Claimable(old(streams.pending), MinIdle(), streams.still)
      ensures ok ==> streams.acked == old(streams.acked) + Elements(claimed)
      ensures ok ==> AllRecovered(old(streams.pending), streams.pending, streams.acked, MinIdle(),
                                  streams.still)
      ensures var t := if recoveryMinIdle > 0 then recoveryMinIdle else 30000;
              && (ok ==> forall i :: i in old(streams.pending) && old(streams.pending)[i].idle >= t ==>
                           i in streams.acked)
              && (ok && streams.still ==>
                    forall i :: i in old(streams.pending) && old(streams.pending)[i].idle < t ==>
                      i in streams.pending)
      ensures ok ==> recoveryBatchSize > 0 || batchSize > 0
      ensures ok ==> |streams.acked| == |old(streams.acked)| + total
      ensures ordered ==> InOrder(p', n')
      ensures ordered && ok ==> p' == streams.delivered && streams.pending.Keys == {}
      ensures ordered && GoesOn() && (recoveryBatchSize > 0 || batchSize > 0) ==> ok
      ensures Reliable() && (recoveryBatchSize > 0 || batchSize > 0) && !ok ==>
                StopsAt(config, CommittedBook(), streams.stream,
                        Claimable(old(streams.pending), MinIdle(), streams.still))
    {
      hide GoesOn, InOrder, TablesInv, BookOf, PageDone, PageOf, Progressed, Eligible, Tracked, StopsAt,
           Claimable, Elements, Increasing, StreamStore.Valid, AllRecovered, CountsAre, Counted;
      total, claimed, p', n' := 0, [], p, n;
      NoClaims(streams.pending);
      ghost var counts := streams.counts;
      var size := if recoveryBatchSize <= 0 then batchSize else recoveryBatchSize;
      NoCountYet(counts, if recoveryBatchSize > 0 then recoveryBatchSize else batchSize);
      if size <= 0 {
        return total, false, claimed, p', n';
      }
      var start: nat := 0;
      var more := true;
      ghost var before, already := streams.pending, streams.acked;
      ProgressStarts(before, already, MinIdle(), streams.still);
      while more
        invariant Valid() && streams.delivered == old(streams.delivered)
        invariant Progressed(before, already, streams.pending, streams.acked, claimed, MinIdle(), start,
                             more, streams.still)
        invariant log == old(log) + claimed && |streams.acked| == |already| + total
        invariant ordered ==> Eligible(streams.pending, MinIdle())
        invariant ordered ==> InOrder(p', n') && start <= p'
        invariant ordered && !more ==> p' == streams.delivered
        invariant more ==> start <= streams.delivered
        invariant CountsAre(old(streams.counts), streams.counts, size)
        decreases more, streams.delivered - start
      {
        ghost var pending, acked := streams.pending, streams.acked;
        var processed, done, next;
        ghost var claims, settled;
        ghost var counted := streams.counts;
        processed, done, next, claims, settled, p', n' := RecoverPage(start, size, ordered, p', n');
        OneMoreCount(counts, counted, streams.counts, size);
        Regroup(old(log), claimed, claims[..settled]);
        Regroup(old(log), claimed, claims);
        if !done {
          ProgressStops(before, already, pending, acked, claimed, claims, settled, MinIdle(), start, next,
                        streams.still);
          if Reliable() {
            StopsAtMore(config, CommittedBook(), streams.stream, Elements(claims),
                        Claimable(before, MinIdle(), streams.still));
          }
          return total, false, claimed + claims[..settled], p', n';
        }
        total := total + processed;
        ProgressPage(before, already, pending, acked, streams.pending, claimed, claims, MinIdle(), start,
                     next, streams.still);
        claimed := claimed + claims;
        // The guard on a cursor that stays put cannot fire: the scan passes over an entry.
        more := next.Some?;
        start := if next.Some? then next.value else start;
        if ordered {
          ProgressEligible(before, already, streams.pending, streams.acked, claimed, MinIdle(), start, more,
                           streams.still);
        }
      }
      ok := true;
      streams.Conserves();
      ProgressEnds(before, already, streams.pending, streams.acked, claimed, MinIdle(), start, streams.still);
      IdleTells(before, streams.pending, streams.acked);
      if ordered {
        NothingPending(p', n');
      }
    }

    /** The threshold is the configured one, or 30 seconds when none is configured. */
    lemma IdleTells(before: map<nat, Pending>, now: map<nat, Pending>, acked: set<nat>)
      requires AllRecovered(before, now, acked, MinIdle(), streams.still)
      ensures var t := if recoveryMinIdle > 0 then recoveryMinIdle else 30000;
              && (forall i :: i in before && before[i].idle >= t ==> i in acked)
              && (streams.still ==> forall i :: i in before && before[i].idle < t ==> i in now)
    {
    }

    lemma Regroup(a: seq<nat>, b: seq<nat>, c: seq<nat>)
      ensures (a + b) + c == a + (b + c)
    {
    }

    lemma NoClaims(pending: map<nat, Pending>)
      ensures Increasing([]) && Elements([]) <= Claimable(pending, MinIdle(), streams.still)
    {
    }

    lemma DeliveredInStream()
      requires Valid()
      ensures streams.delivered <= |streams.stream|
    {
    }

    lemma NothingPending(p: nat, n: nat)
      requires Valid() && InOrder(p, n) && p == streams.delivered
      ensures streams.pending.Keys == {} && streams.AllIdle(MinIdle()) && n == p
    {
    }

    lemma TrackStays(ms: seq<Message>)
      requires Explained(config, origin, ms, log, CommittedBook()) && ms <= streams.stream
      requires forall i :: i in streams.acked ==> i in already || Justified(config, origin, ms, log, i)
      ensures Tracked()
    {
      hide Explained, Justified, BookOf;
      ExplainedStays(config, origin, ms, streams.stream, log, CommittedBook());
      forall i | i in streams.acked && i !in already
        ensures Justified(config, origin, streams.stream, log, i)
      {
        JustifiedStays(config, origin, ms, streams.stream, log, i);
      }
    }

    /** Reads fresh messages. What was settled in order stays so: the stream only grows. */
    method ReadFresh(count: nat, ghost ordered: bool, ghost p: nat, ghost n: nat)
      returns (ok: bool, entries: seq<nat>)
      requires Valid() && count > 0
      requires ordered ==> InOrder(p, n)
      modifies streams`stream, streams`last, streams`ids, streams`delivered, streams`pending
      ensures Valid()
      ensures old(streams.stream) <= streams.stream
      ensures old(streams.delivered) <= streams.delivered <= old(streams.delivered) + count
      ensures streams.delivered == old(streams.delivered) + count || streams.delivered == |streams.stream|
      ensures entries == Range(old(streams.delivered), streams.delivered)
      ensures forall i :: i in entries ==> i < streams.delivered
      ensures ok ==> AllParse(streams.stream, entries)
      ensures streams.pending.Keys
                == old(streams.pending).Keys + (Below(streams.delivered) - Below(old(streams.delivered)))
      ensures forall i :: i in streams.pending ==>
                streams.pending[i].owner ==
                  if i in old(streams.pending) then old(streams.pending)[i].owner else name
      ensures ordered ==> InOrder(p, n)
      ensures GoesOn() ==> ok
      ensures Reliable() && !ok ==> StopsAt(config, CommittedBook(), streams.stream, Elements(entries))
    {
      hide TablesInv, BookOf, AllParse, AllPass, SettleAll, Range, StreamStore.Valid, Explained, Justified,
           StopsAt;
      ghost var ms, delivered := streams.stream, streams.delivered;
      ok, entries := streams.ReadGroup(name, count);
      TrackStays(ms);
      if ordered {
        assert streams.stream[..n] == ms[..n] && streams.stream[..p] == ms[..p];
      }
      DeliveredInStream();
      RangeInStream(delivered, streams.delivered);
      if GoesOn() {
        PassParses(config, origin, streams.stream, delivered, streams.delivered);
      }
      if Reliable() && !ok {
        NotParsedStops(config, CommittedBook(), streams.stream, entries);
      }
    }

    lemma RangeInStream(delivered: nat, delivered': nat)
      requires delivered <= delivered' <= |streams.stream|
      ensures forall k :: 0 <= k < |Range(delivered, delivered')| ==>
                Range(delivered, delivered')[k] < |streams.stream|
      ensures forall i :: i in Range(delivered, delivered') <==> delivered <= i < delivered'
    {
      forall i | delivered <= i < delivered' ensures i in Range(delivered, delivered') {
        assert Range(delivered, delivered')[i - delivered] == i;
      }
    }

    /** Reads fresh messages and settles them in order. With nothing pending before, the order of the
        whole stream is kept. */
    method ProcessBatch(count: nat, ghost ordered: bool, ghost p: nat, ghost n: nat)
      returns (processed: nat, ok: bool, ghost settled: nat, ghost p': nat, ghost n': nat)
      requires Valid() && count > 0
      requires ordered ==> InOrder(p, n) && p == streams.delivered
      modifies this`log, streams, ledger
      ensures Valid()
      ensures old(streams.stream) <= streams.stream
      ensures old(streams.delivered) <= streams.delivered <= old(streams.delivered) + count
      ensures streams.delivered == old(streams.delivered) + count || streams.delivered == |streams.stream|
      ensures settled <= streams.delivered - old(streams.delivered)
      ensures log == old(log) + Range(old(streams.delivered), streams.delivered)[..settled]
      ensures ok ==> log == old(log) + Range(old(streams.delivered), streams.delivered)
      ensures ok ==> settled == streams.delivered - old(streams.delivered)
      ensures processed <= count
      ensures ok ==> processed == streams.delivered - old(streams.delivered)
      ensures ok ==> |streams.acked| == |old(streams.acked)| + processed
      ensures ok ==> streams.pending.Keys == old(streams.pending).Keys
      ensures ordered ==> InOrder(p', n') && (ok ==> p' == streams.delivered)
      ensures ordered && GoesOn() ==> ok
      ensures Reliable() && !ok ==>
                StopsAt(config, CommittedBook(), streams.stream,
                        Elements(Range(old(streams.delivered), streams.delivered)))
    {
      hide GoesOn, InOrder, TablesInv, BookOf, Parsed, AllParse, SettleAll, StreamStore.Valid, Elements,
           Range, Tracked, StopsAt;
      processed, settled, p', n' := 0, 0, p, n;
      ghost var pending, acked, delivered := streams.pending.Keys, streams.acked, streams.delivered;
      AllDelivered();
      var entries;
      ok, entries := ReadFresh(count, ordered, p, n);
      ghost var read := streams.pending;
      if !ok {
        return;
      }
      ghost var acks;
      processed, ok, settled, acks, p', n' :=
        ProcessInOrder(entries, ordered, p, n, streams.delivered);
      if ok {
        FreshDone(pending, acked, read, delivered, streams.delivered, entries);
      }
    }

    lemma AllDelivered()
      requires streams.Valid()
      ensures streams.pending.Keys <= Below(streams.delivered) && streams.acked <= Below(streams.delivered)
    {
    }

    lemma FreshDone(pending: set<nat>, acked: set<nat>, read: map<nat, Pending>, delivered: nat,
                    delivered': nat, entries: seq<nat>)
      requires delivered <= delivered' && pending <= Below(delivered) && acked <= Below(delivered)
      requires read.Keys == pending + (Below(delivered') - Below(delivered))
      requires entries == Range(delivered, delivered')
      ensures (read - Elements(entries)).Keys == pending
      ensures |acked + Elements(entries)| == |acked| + (delivered' - delivered)
      ensures |entries| == delivered' - delivered
    {
      hide Range;
      FreshCount(acked, delivered, delivered');
      forall i: nat ensures i in Elements(entries) <==> delivered <= i < delivered' {
        if delivered <= i < delivered' {
          assert entries[i - delivered] == i;
        }
      }
    }

    /** One round of the main loop: recover, then read fresh messages.

        When time stands still and a fresh message was acknowledged, the acknowledged messages are a
        prefix of the stream exactly when every pending entry was idle long enough at the start: a
        consumer that starts too early lets fresh messages overtake the pending ones. */
    method Round(ghost ordered: bool, ghost p: nat, ghost n: nat)
      returns (ok: bool, ghost claimed: seq<nat>, ghost settled: nat, ghost p': nat, ghost n': nat)
      requires Valid() && batchSize > 0
      requires ordered ==> InOrder(p, n) && streams.AllIdle(MinIdle())
      modifies this`log, streams, ledger
      ensures Valid()
      ensures old(streams.stream) <= streams.stream && old(streams.delivered) <= streams.delivered
      ensures streams.delivered <= old(streams.delivered) + batchSize
      ensures streams.delivered >= old(streams.delivered) + batchSize
              || !ok || streams.delivered == |streams.stream|
      ensures old(log) <= log && Increasing(claimed)
      ensures Elements(claimed) <= Claimable(old(streams.pending), MinIdle(), streams.still)
      ensures settled <= streams.delivered - old(streams.delivered)
      ensures log == old(log) + claimed + Range(old(streams.delivered), streams.delivered)[..settled]
      ensures ok ==> settled == streams.delivered - old(streams.delivered)
      ensures Reliable() && !ok ==>
                || StopsAt(config, CommittedBook(), streams.stream,
                           Claimable(old(streams.pending), MinIdle(), streams.still))
                || StopsAt(config, CommittedBook(), streams.stream,
                           Elements(Range(old(streams.delivered), streams.delivered)))
      ensures ordered ==> InOrder(p', n')
      ensures ordered && ok ==> p' == n' == streams.delivered && streams.pending.Keys == {}
      ensures ordered && ok ==> streams.AllIdle(MinIdle())
      ensures ordered && GoesOn() ==> ok
      ensures ok && streams.still && old(streams.delivered) < streams.delivered ==>
                ((exists q: nat :: streams.acked == Below(q)) <==>
                   forall i :: i in old(streams.pending) ==>
                     old(streams.pending)[i].idle >= (if recoveryMinIdle > 0 then recoveryMinIdle else 30000))
    {
      hide GoesOn, InOrder, StreamStore.Valid, TablesInv, Tracked, Elements, Range, Increasing, StopsAt,
           Claimable, Eligible, IsPrefix, AllRecovered, BookOf;
      ghost var before, delivered := streams.pending, streams.delivered;
      AllDelivered();
      var _, recovered, claims, p1, n1 := RecoverPending(ordered, p, n);
      claimed, settled, p', n' := claims, 0, p1, n1;
      assert old(log) <= log;
      if !recovered {
        return false, claimed, settled, p', n';
      }
      ghost var after, acked := streams.pending, streams.acked;
      var _, processed, done, p2, n2 := ProcessBatch(batchSize, ordered, p', n');
      settled, p', n' := done, p2, n2;
      if !processed {
        return false, claimed, settled, p', n';
      }
      ok := true;
      if streams.still && delivered < streams.delivered {
        RoundPrefix(before, delivered, after, acked);
      }
      if ordered {
        NothingPending(p', n');
      }
    }

    lemma RoundPrefix(before: map<nat, Pending>, delivered: nat, after: map<nat, Pending>, acked: set<nat>)
      requires streams.Valid() && delivered < streams.delivered && before.Keys <= Below(delivered)
      requires streams.pending.Keys == after.Keys <= before.Keys
      requires AllRecovered(before, after, acked, MinIdle(), true)
      ensures var t := if recoveryMinIdle > 0 then recoveryMinIdle else 30000;
              (exists q: nat :: streams.acked == Below(q)) <==> forall i :: i in before ==> before[i].idle >= t
    {
      PrefixExactly(before, after, streams.acked, delivered, streams.delivered, MinIdle());
    }

    lemma GoesOnReliably()
      ensures GoesOn() ==> Reliable()
    {
    }

    /** The main loop, stopped by cancellation after some number of `rounds` or by an error. Whatever
        it finds pending, the ledger stays explained by the history. `ordered` adds what holds after
        a run in order with every pending entry eligible: it goes on when nothing fails and every
        message passes, and after a full round nothing that was delivered is left pending. */
    method Run(rounds: nat, ghost ordered: bool, ghost p: nat, ghost n: nat)
      returns (ok: bool, ghost p': nat, ghost n': nat)
      requires Valid()
      requires ordered ==> InOrder(p, n) && streams.AllIdle(MinIdle())
      modifies this`log, streams, ledger
      ensures Valid()
      ensures old(streams.stream) <= streams.stream && old(log) <= log
      ensures ordered ==> InOrder(p', n')
      ensures ordered && ok && rounds > 0 ==> p' == n' == streams.delivered && streams.pending.Keys == {}
      ensures ordered && GoesOn() && Configured() ==> ok
    {
      hide InOrder, StreamStore.Valid, TablesInv, GoesOn, Tracked, Eligible;
      p', n' := p, n;
      GoesOnReliably();
      ok := EnsureGroup();
      if !ok {
        return;
      }
      for r := 0 to rounds
        invariant Valid() && old(streams.stream) <= streams.stream && old(log) <= log
        invariant ordered ==> InOrder(p', n') && streams.AllIdle(MinIdle())
        invariant ordered && r > 0 ==> p' == n' == streams.delivered && streams.pending.Keys == {}
      {
        var done, _, _, p1, n1 := Round(ordered, p', n');
        p', n' := p1, n1;
        if !done {
          return false, p', n';
        }
      }
    }

    /** Crash-recovery equivalence. A consumer is started any number of times, and each time dies or
        stops anywhere. Whatever happened, the ledger is what the history makes of the first book,
        and every acknowledged message was turned away or answered at its place in the history.

        A `patient` consumer starts only after the pending entries have become eligible. Then the
        acknowledged messages are a prefix of the stream, they all passed, and the ledger is what the
        messages of that prefix, and at most the next one, make of the first book when each is
        settled once, in order. When the auction `a` of this stream had no bids, its bids are then
        the first acceptable message of each key of that prefix, in order. When nothing fails and
        every message passes, everything delivered is acknowledged. */
    method RunWithRestarts(starts: nat, rounds: nat, patient: bool, ghost a: Uuid)
      returns (ghost p: nat, ghost n: nat)
      requires Valid() && log == [] && streams.delivered == 0 && already == {}
      modifies this`log, streams, ledger
      ensures Valid() && old(streams.stream) <= streams.stream
      ensures Explained(config, origin, streams.stream, log, CommittedBook())
      ensures forall i :: i in streams.acked ==> Justified(config, origin, streams.stream, log, i)
      ensures patient ==> InOrder(p, n)
      ensures patient ==> CommittedBook() == SettleAll(config, origin, streams.stream[..n])
      ensures patient ==> streams.acked == Below(p) && p <= n <= p + 1
      ensures patient ==> AllPass(config, origin, streams.stream[..p])
      ensures (patient && config.parseUuid(config.auctionId) == Some(a) && a in origin
               && origin[a].bids == []) ==>
                && CommittedBook().Keys == origin.Keys
                && CommittedBook()[a].bids == BidsAt(config, streams.stream[..n],
                                                     Kept(config, origin, streams.stream[..n]))
      ensures patient && GoesOn() && Configured() && starts > 0 && rounds > 0 ==>
                p == n == streams.delivered && streams.pending.Keys == {}
    {
      hide TablesInv, StreamStore.Valid, SettleAll, Kept, BidsAt, GoesOn, AllPass, Explained, Justified;
      p, n := 0, 0;
      StartInOrder();
      for s := 0 to starts
        invariant Valid() && (patient ==> InOrder(p, n)) && old(streams.stream) <= streams.stream
        invariant patient && GoesOn() && Configured() && s > 0 && rounds > 0 ==>
                    p == n == streams.delivered && streams.pending.Keys == {}
      {
        var elapsed: nat :| 0 <= elapsed;
        if patient {
          elapsed := MinIdle();
        }
        streams.Wait(elapsed);
        var _, p1, n1 := Run(rounds, patient, p, n);
        p, n := p1, n1;
      }
      if patient && config.parseUuid(config.auctionId) == Some(a) && a in origin && origin[a].bids == [] {
        KeepsFirstAcceptable(config, origin, streams.stream[..n], a);
      }
    }

    /** With the price rule as the hook, prices rise along this consumer's ledger whatever happened: it
        needs no order and no patience. */
    lemma PricesRise(p: Pricing, a: Uuid)
      requires Valid() && UsesHook(config, p, a) && a in origin && origin[a].bids == []
      ensures a in CommittedBook() && PricesClimb(p, CommittedBook()[a].bids)
    {
      hide UsesHook, PricesClimb, SettleAll;
      PricesGrow(config, p, a, origin, MessagesAt(streams.stream, log));
    }

    /** Closing is final on this stream, whose identifiers rise: once a settled message was late, the
        ledger is still what it was before that message. */
    lemma ClosedForGood(p: nat, n: nat, i: nat, a: Uuid)
      requires Valid() && InOrder(p, n) && config.parseUuid(config.auctionId) == Some(a) && i < n
      requires var before, at := SettleAll(config, origin, streams.stream[..i]),
                                 StreamEntryTime(streams.stream[i].id);
               a in before && at.Ok? && at.value >= before[a].close
      ensures CommittedBook() == SettleAll(config, origin, streams.stream[..i])
    {
      hide SettleAll, InIssueOrder, AllPass, StreamEntryTime;
      streams.IssueOrder();
      ClosingIsFinal(config, origin, streams.stream, a, i, n);
    }

    lemma StartInOrder()
      requires Valid() && log == [] && streams.delivered == 0 && already == {}
      ensures InOrder(0, 0)
    {
      assert MessagesAt(streams.stream, []) == streams.stream[..0];
    }

    /** Processes fresh messages until exactly `expected` are acknowledged, within `polls` reads. It
        gets there when nothing fails, enough messages are there and polls are allowed, and no
        message stops it. */
    method ProcessExactly(expected: int, polls: nat) returns (ok: bool)
      requires Valid()
      modifies this`log, streams, ledger
      ensures Valid()
      ensures ok ==> expected > 0 && streams.delivered == old(streams.delivered) + expected
      ensures ok ==> log == old(log) + Range(old(streams.delivered), streams.delivered)
      ensures ok ==> |streams.acked| == |old(streams.acked)| + expected
      ensures old(log) <= log && old(streams.stream) <= streams.stream
      ensures old(streams.delivered) <= streams.delivered
      ensures (!ok && Reliable() && Configured() && 0 < expected <= polls
               && old(streams.delivered) + expected <= |old(streams.stream)|) ==>
                StopsAt(config, CommittedBook(), streams.stream,
                        Elements(Range(old(streams.delivered), streams.delivered)))
    {
      hide TablesInv, StreamStore.Valid, Tracked, StopsAt, Elements, Range;
      if expected <= 0 {
        return false;
      }
      var ready := EnsureGroup();
      if !ready {
        return false;
      }
      var processed, left := 0, polls;
      ghost var delivered := streams.delivered;
      RangeEmpty(delivered);
      while processed < expected && left > 0
        invariant Valid() && 0 <= processed <= expected && old(streams.stream) <= streams.stream
        invariant streams.delivered == delivered + processed
        invariant log == old(log) + Range(delivered, streams.delivered)
        invariant |streams.acked| == |old(streams.acked)| + processed
        invariant delivered + expected <= |old(streams.stream)| ==> polls - left <= processed
        decreases left
      {
        var remaining := expected - processed;
        var count := if remaining < batchSize then remaining else batchSize;
        ghost var before := streams.delivered;
        var batch, done, settled, _, _ := ProcessBatch(count, false, 0, 0);
        RangeJoin(delivered, before, streams.delivered);
        if !done {
          RangeStops(delivered, before, streams.delivered);
          return false;
        }
        processed := processed + batch;
        left := left - 1;
      }
      ok := processed == expected;
    }

    lemma RangeEmpty(p: nat)
      ensures Range(p, p) == []
    {
    }

    lemma RangeJoin(p: nat, q: nat, r: nat)
      requires p <= q <= r
      ensures Range(p, q) + Range(q, r) == Range(p, r)
    {
    }

    lemma RangeStops(p: nat, q: nat, r: nat)
      requires p <= q <= r
      ensures StopsAt(config, CommittedBook(), streams.stream, Elements(Range(q, r))) ==>
                StopsAt(config, CommittedBook(), streams.stream, Elements(Range(p, r)))
    {
      hide Range, StopsAt;
      RangeJoin(p, q, r);
      assert forall x :: x in Range(q, r) ==> x in Range(p, q) + Range(q, r);
      if StopsAt(config, CommittedBook(), streams.stream, Elements(Range(q, r))) {
        StopsAtMore(config, CommittedBook(), streams.stream, Elements(Range(q, r)), Elements(Range(p, r)));
      }
    }
  }
}
