/** Concrete incidents with the ledger and the consumer as written. */
module Incidents {
  import opened Domain
  import opened Ledger
  import opened StreamId
  import opened StreamFields
  import opened Settlement
  import opened Streams
  import opened Positions
  import opened Recovery
  import opened Ledgers
  import opened Consumer
  import opened Witnesses
  import Refinement

  /** A commit that fails and has taken effect: the caller gets an error, and the bid is there. */
  method ErroredCommit() returns (store: LedgerStore, r: Result<Response, LedgerError>)
    ensures r == Err(CommitFailed)
    ensures Refinement.BookOf(store.db) == BookWith([BidOf(1, "k", 100)])
  {
    hide Append, BidOf;
    StartTables();
    store := new LedgerStore(START.ledger.db, AfterCommit);
    r := store.AppendBidIdempotentWithAntiSnipe(BidOf(1, "k", 100), 1);
    FirstAppend();
    assert [] + [BidOf(1, "k", 100)] == [BidOf(1, "k", 100)];
  }

  lemma StartTables()
    ensures Refinement.TablesInv(START.ledger.db)
    ensures Refinement.BookOf(START.ledger.db) == BookWith([])
    ensures 1 in START.ledger.db.auctions
    ensures Refinement.AuctionOf(START.ledger.db.auctions[1]) == AuctionWith([])
  {
  }

  lemma FirstAppend()
    ensures BidOf(1, "k", 100).auctionId == 1
    ensures Append(AntiSnipe, AuctionWith([]), BidOf(1, "k", 100), 1).1.Ok?
    ensures Append(AntiSnipe, AuctionWith([]), BidOf(1, "k", 100), 1).0
              == AuctionWith([BidOf(1, "k", 100)])
  {
  }

  // ---- An early restart ----

  /** The consumer without a hook. */
  function Plain(): Config {
    Config("a", (s: string) => Some(|s|), None)
  }

  lemma PlainReads(ms: nat, key: string, amount: Int64)
    requires amount > 0 && key != "" && ms <= MAX_INT64
    ensures var m := Sent(ms, key, amount);
            Parsed(m).Ok? && Accepts(Plain(), map[], Parsed(m).value)
            && ToBid(Plain(), Parsed(m).value) == Ok((BidOf(ms, key, amount), ms))
  {
    hide ParseMessage, StreamEntryTime;
    SentReads(ms, key, amount);
    FormatRoundTrip(ms, 0);
  }

  lemma PlainSettles(ms: nat, key: string, amount: Int64, bids: seq<Bid>)
    requires amount > 0 && key != "" && ms < 998 && !HasKey(bids, |key|)
    ensures Settle(Plain(), BookWith(bids), Sent(ms, key, amount))
              == BookWith(bids + [BidOf(ms, key, amount)])
    ensures Passes(Plain(), BookWith(bids), Sent(ms, key, amount))
  {
    hide Parsed, Sent;
    PlainReads(ms, key, amount);
    AppendSays(ms, key, amount, bids);
  }

  const FIRST: Bid := BidOf(1, "k", 100)
  const SECOND: Bid := BidOf(2, "kk", 50)

  /** The two messages in stream order, and the other way round. */
  lemma BothOrders()
    ensures SettleAll(Plain(), BookWith([]), [HIGH, LOW]) == BookWith([FIRST, SECOND])
    ensures SettleAll(Plain(), BookWith([]), [LOW]) == BookWith([SECOND])
    ensures SettleAll(Plain(), BookWith([]), [LOW, HIGH]) == BookWith([SECOND, FIRST])
    ensures Passes(Plain(), BookWith([]), LOW) && Passes(Plain(), BookWith([SECOND]), LOW)
    ensures Passes(Plain(), BookWith([SECOND]), HIGH) && Passes(Plain(), BookWith([SECOND, FIRST]), HIGH)
  {
    hide Settle, Passes, Sent, BookWith;
    PlainSettles(1, "k", 100, []);
    PlainSettles(2, "kk", 50, []);
    PlainSettles(2, "kk", 50, [FIRST]);
    PlainSettles(1, "k", 100, [SECOND]);
    PassesAgain(Plain(), BookWith([]), LOW);
    PassesAgain(Plain(), BookWith([SECOND]), HIGH);
    assert [] + [FIRST] == [FIRST] && [] + [SECOND] == [SECOND];
    assert [FIRST] + [SECOND] == [FIRST, SECOND] && [SECOND] + [FIRST] == [SECOND, FIRST];
    assert [HIGH, LOW][..1] == [HIGH] && [LOW, HIGH][..1] == [LOW];
    assert [HIGH][..0] == [] && [LOW][..0] == [];
    assert SettleAll(Plain(), BookWith([]), []) == BookWith([]);
    assert SettleAll(Plain(), BookWith([]), [HIGH]) == BookWith([FIRST]);
    assert SettleAll(Plain(), BookWith([]), [LOW]) == BookWith([SECOND]);
  }

  lemma NoneClaimed(claimed: seq<nat>)
    requires Increasing(claimed) && Elements(claimed) <= {}
    ensures claimed == []
  {
    IncreasingCount(claimed);
  }

  lemma ZeroClaimed(claimed: seq<nat>)
    requires Increasing(claimed) && Elements(claimed) <= {0}
    ensures claimed == if 0 in claimed then [0] else []
  {
    IncreasingCount(claimed);
    if 0 in claimed {
      assert Elements(claimed) == {0};
      assert claimed[0] in claimed;
    } else {
      assert Elements(claimed) == {};
    }
  }

  /** Whatever happens to the one fresh message, the second one of the stream, it stops nobody. */
  lemma LowPasses(ms: seq<Message>, log: seq<nat>, settled: nat, book: Book)
    requires |ms| >= 2 && ms[1] == LOW && settled <= 1 && log == Range(1, 2)[..settled]
    requires Explained(Plain(), BookWith([]), ms, log, book)
    ensures !StopsAt(Plain(), book, ms, Elements(Range(1, 2))) && !StopsAt(Plain(), book, ms, {})
    ensures settled == 1 ==> log == [1] && book == BookWith([SECOND])
  {
    hide Passes, SettleAll, BookWith;
    BothOrders();
    assert Range(1, 2) == [1];
    if settled == 0 {
      assert MessagesAt(ms, log) == [];
      assert [LOW][..0] == [];
      NoMessages();
    } else {
      assert log == [1] && MessagesAt(ms, log) == [LOW];
    }
  }

  lemma NoMessages()
    ensures SettleAll(Plain(), BookWith([]), []) == BookWith([])
  {
  }

  lemma HighPasses(ms: seq<Message>, claimed: seq<nat>, book: Book)
    requires |ms| >= 2 && ms[0] == HIGH && ms[1] == LOW
    requires Increasing(claimed) && Elements(claimed) <= {0}
    requires Explained(Plain(), BookWith([]), ms, [1] + claimed, book)
    ensures !StopsAt(Plain(), book, ms, {0})
    ensures 0 in claimed ==> book == BookWith([SECOND, FIRST])
  {
    hide Passes, SettleAll, BookWith;
    BothOrders();
    ZeroClaimed(claimed);
    if claimed == [] {
      assert MessagesAt(ms, [1] + claimed) == [LOW];
    } else {
      assert MessagesAt(ms, [1] + claimed) == [LOW, HIGH];
    }
  }

  /** Two messages have arrived; a consumer has read the first one and died. */
  method TwoMessages() returns (streams: StreamStore)
    ensures fresh(streams) && streams.Valid() && !streams.faulty && streams.still
    ensures |streams.stream| >= 2 && streams.stream[0] == HIGH && streams.stream[1] == LOW
    ensures streams.delivered == 1 && streams.pending == map[0 := Pending("first", 0)]
    ensures streams.acked == {}
  {
    hide AllParse, IngressFields, Range, Format, StreamStore.Issued;
    streams := new StreamStore(false, true);
    SentFields();
    var _ := streams.AppendBid(1, Ingress("k", 100));
    var _ := streams.AppendBid(2, Ingress("kk", 50));
    var _, _ := streams.ReadGroup("first", 1);
  }

  lemma SentFields()
    ensures IngressFields(Ingress("k", 100)).Ok? && IngressFields(Ingress("kk", 50)).Ok?
    ensures HIGH == Message(Format(1, 0), IngressFields(Ingress("k", 100)).value)
    ensures LOW == Message(Format(2, 0), IngressFields(Ingress("kk", 50)).value)
  {
  }

  /** Another consumer starts at once. The pending message is not idle long enough, and the fresh one
      overtakes it. */
  method FreshOvertakes(streams: StreamStore) returns (consumer: LedgerConsumer)
    requires streams.Valid() && !streams.faulty && streams.still
    requires |streams.stream| >= 2 && streams.stream[0] == HIGH && streams.stream[1] == LOW
    requires streams.delivered == 1 && streams.pending == map[0 := Pending("first", 0)]
    requires streams.acked == {}
    modifies streams
    ensures consumer.Valid() && fresh(consumer) && fresh(consumer.ledger)
    ensures consumer.streams == streams && consumer.config == Plain()
    ensures consumer.MinIdle() == 30000 && consumer.Reliable() && consumer.batchSize == 1
    ensures consumer.origin == BookWith([]) && consumer.already == {}
    ensures |streams.stream| >= 2 && streams.stream[0] == HIGH && streams.stream[1] == LOW
    ensures streams.delivered == 2 && consumer.log == [1]
    ensures streams.acked == {1} && streams.pending.Keys == {0}
  {
    hide Explained, StopsAt, Claimable, Elements, Range, AllRecovered, SettleAll, BookWith, Increasing,
         Eligible, StreamStore.Valid, LedgerConsumer.Tracked, Refinement.TablesInv;
    StartTables();
    var ledger := new LedgerStore(START.ledger.db, Never);
    consumer := new LedgerConsumer(streams, ledger, Plain(), "g", "second", 1, 0, 0, false);
    NotIdleEnough(streams.pending);
    var done, claimed, settled, _, _ := consumer.Round(false, 0, 0);
    NoneClaimed(claimed);
    RoundLog(consumer, settled);
    streams.Conserves();
    OnlyFresh(streams.acked, streams.pending.Keys);
  }

  lemma OnlyFresh(acked: set<nat>, pending: set<nat>)
    requires !(exists q: nat :: acked == Below(q)) && pending !! acked && pending + acked == Below(2)
    ensures acked == {1} && pending == {0}
  {
    assert acked != Below(0) && acked != Below(1) && acked != Below(2);
    assert Below(0) == {} && Below(1) == {0} && Below(2) == {0, 1};
    assert forall i :: i in acked + pending ==> i in {0, 1};
    assert acked == {} || acked == {0} || acked == {1} || acked == {0, 1};
  }

  lemma RoundLog(consumer: LedgerConsumer, settled: nat)
    requires consumer.Valid() && consumer.origin == BookWith([]) && consumer.config == Plain()
    requires |consumer.streams.stream| >= 2 && consumer.streams.stream[1] == LOW
    requires settled <= consumer.streams.delivered - 1 <= 1
    requires consumer.log == [] + [] + Range(1, consumer.streams.delivered)[..settled]
    ensures !StopsAt(Plain(), consumer.CommittedBook(), consumer.streams.stream, {})
    ensures !StopsAt(Plain(), consumer.CommittedBook(), consumer.streams.stream,
                     Elements(Range(1, consumer.streams.delivered)))
    ensures settled == 1 ==> consumer.log == [1]
  {
    hide Explained, StopsAt, StreamStore.Valid, LedgerStore.Valid, SettleAll;
    var delivered := consumer.streams.delivered;
    assert consumer.Tracked();
    assert [] + [] + Range(1, delivered)[..settled] == Range(1, 2)[..settled];
    LowPasses(consumer.streams.stream, consumer.log, settled, consumer.CommittedBook());
    if delivered == 1 {
      assert Elements(Range(1, 1)) == {};
    }
  }

  lemma NotIdleEnough(pending: map<nat, Pending>)
    requires pending == map[0 := Pending("first", 0)]
    ensures Claimable(pending, 30000, true) == {} && exists i :: i in pending && pending[i].idle < 30000
  {
    assert 0 in pending;
  }


  /** Later the pending message is idle long enough and is recovered. */
  method PendingFollows(consumer: LedgerConsumer)
    requires consumer.Valid() && consumer.config == Plain() && consumer.Reliable()
    requires consumer.MinIdle() == 30000 && consumer.batchSize == 1 && consumer.streams.still
    requires consumer.origin == BookWith([]) && consumer.log == [1]
    requires [HIGH, LOW] <= consumer.streams.stream
    requires consumer.streams.acked == {1} && consumer.streams.pending.Keys == {0}
    modifies consumer`log, consumer.streams`pending, consumer.streams`acked, consumer.streams`counts,
             consumer.ledger
    ensures consumer.streams.acked == {0, 1} && consumer.CommittedBook() == BookWith([SECOND, FIRST])
  {
    hide Explained, StopsAt, Claimable, Elements, AllRecovered, SettleAll, BookWith, Increasing, AllPass,
         StreamStore.Valid, LedgerConsumer.Tracked, Refinement.TablesInv, Refinement.BookOf;
    consumer.streams.Wait(30000);
    ghost var before := consumer.streams.pending;
    OnlyZero(before);
    var _, ok, claimed, _, _ := consumer.RecoverPending(false, 0, 0);
    RecoveryLog(consumer, claimed);
    ZeroRecovered(before, consumer.streams.pending, consumer.streams.acked);
    ZeroAcked(consumer, claimed);
  }

  /** Once the pending message is recovered, the ledger is not the one that the stream makes in its
      own order. */
  method EarlyRestart() returns (consumer: LedgerConsumer)
    ensures [HIGH, LOW] <= consumer.streams.stream
    ensures consumer.streams.delivered == 2 && consumer.streams.acked == {0, 1}
    ensures consumer.CommittedBook() == BookWith([SECOND, FIRST])
    ensures SettleAll(consumer.config, consumer.origin, [HIGH, LOW]) == BookWith([FIRST, SECOND])
  {
    hide SettleAll, BookWith, StreamStore.Valid, LedgerConsumer.Tracked, Refinement.TablesInv,
         Refinement.BookOf;
    var streams := TwoMessages();
    consumer := FreshOvertakes(streams);
    PendingFollows(consumer);
    BothOrders();
  }

  lemma OnlyZero(pending: map<nat, Pending>)
    requires pending.Keys == {0} && pending[0].idle >= 30000
    ensures Claimable(pending, 30000, true) == {0}
  {
  }

  lemma ZeroRecovered(before: map<nat, Pending>, now: map<nat, Pending>, acked: set<nat>)
    requires before.Keys == {0} && before[0].idle >= 30000 && AllRecovered(before, now, acked, 30000, true)
    ensures 0 in acked
  {
  }

  lemma RecoveryLog(consumer: LedgerConsumer, claimed: seq<nat>)
    requires consumer.Valid() && consumer.origin == BookWith([]) && consumer.config == Plain()
    requires [HIGH, LOW] <= consumer.streams.stream
    requires consumer.log == [1] + claimed && Increasing(claimed) && Elements(claimed) <= {0}
    ensures !StopsAt(Plain(), consumer.CommittedBook(), consumer.streams.stream, {0})
    ensures 0 in claimed ==> consumer.CommittedBook() == BookWith([SECOND, FIRST])
  {
    hide Explained, StopsAt, StreamStore.Valid, LedgerStore.Valid, SettleAll;
    assert consumer.Tracked();
    HighPasses(consumer.streams.stream, claimed, consumer.CommittedBook());
  }

  lemma ZeroAcked(consumer: LedgerConsumer, claimed: seq<nat>)
    requires consumer.streams.acked == {1} + Elements(claimed) && Elements(claimed) <= {0}
    requires 0 in consumer.streams.acked
    ensures 0 in claimed && consumer.streams.acked == {0, 1}
  {
  }


  // ---- A message that the ledger cannot take ----

  /** It arrives after the close, and there is no hook to turn it away. */
  const LATE: Message := Sent(2000, "k", 100)

  lemma LateStops()
    ensures !Passes(Plain(), BookWith([]), LATE) && Parsed(LATE).Ok?
  {
    hide Parsed;
    PlainReads(2000, "k", 100);
  }

  lemma FirstStops(c: Config, book: Book, ms: seq<Message>, p: nat)
    requires 0 < p <= |ms| && !Passes(c, book, ms[0])
    ensures !AllPass(c, book, ms[..p])
  {
    hide Passes;
    assert ms[..p][0] == ms[0] && ms[..p][..0] == [];
  }

  /** The late message settles to nothing. */
  lemma LateIsNothing(ms: seq<Message>, n: nat)
    requires n <= 1 <= |ms| && ms[0] == LATE
    ensures SettleAll(Plain(), BookWith([]), ms[..n]) == BookWith([])
  {
    hide Settle, Passes, BookWith;
    LateStops();
    if n == 1 {
      assert ms[..1] == [LATE] && [LATE][..0] == [];
      StopsWithoutEffect(Plain(), BookWith([]), LATE);
    }
  }

  /** A stream that starts with the late message, and a consumer for it. */
  method LateMessage() returns (consumer: LedgerConsumer)
    ensures fresh(consumer) && fresh(consumer.streams) && fresh(consumer.ledger)
    ensures consumer.Valid() && consumer.Reliable() && consumer.Configured()
    ensures consumer.config == Plain() && consumer.batchSize == 1
    ensures consumer.origin == BookWith([]) && consumer.already == {} && consumer.log == []
    ensures consumer.streams.stream == [LATE] && consumer.streams.delivered == 0
    ensures consumer.streams.pending == map[] && consumer.streams.acked == {}
  {
    hide IngressFields, BookWith, Explained, LedgerConsumer.Tracked, Refinement.TablesInv, Format,
         StreamStore.Issued, Below;
    var streams := new StreamStore(false, false);
    LateFields();
    var _ := streams.AppendBid(2000, Ingress("k", 100));
    StartTables();
    var ledger := new LedgerStore(START.ledger.db, Never);
    consumer := new LedgerConsumer(streams, ledger, Plain(), "g", "only", 1, 0, 0, false);
  }

  lemma LateFields()
    ensures IngressFields(Ingress("k", 100)).Ok?
    ensures LATE == Message(Format(2000, 0), IngressFields(Ingress("k", 100)).value)
  {
  }

  /** The call that meets the message stops with an error, although nothing fails, and the entry stays
      pending. */
  method StopsAtLate() returns (consumer: LedgerConsumer, ok: bool)
    ensures !ok && consumer.Reliable()
    ensures consumer.streams.delivered == 1 && consumer.streams.pending.Keys == {0}
    ensures consumer.streams.acked == {}
  {
    hide AllPass, Passes, SettleAll, BookWith, StreamStore.Valid, LedgerConsumer.Tracked, StopsAt, Range;
    LateStops();
    consumer := LateMessage();
    consumer.StartInOrder();
    var _, done, _, p, _ := consumer.ProcessBatch(1, true, 0, 0);
    ok := done;
    if p > 0 {
      FirstStops(Plain(), BookWith([]), consumer.streams.stream, p);
    }
    consumer.streams.Conserves();
  }

  /** However often the consumer is restarted, it never gets past the message: nothing is ever
      acknowledged or committed. */
  method NeverGetsPast(starts: nat, rounds: nat) returns (consumer: LedgerConsumer)
    ensures consumer.Reliable() && consumer.streams.acked == {} && consumer.CommittedBook() == BookWith([])
    ensures consumer.streams.pending.Keys == Below(consumer.streams.delivered)
  {
    hide AllPass, Passes, SettleAll, BookWith, StreamStore.Valid, LedgerConsumer.Tracked, Explained,
         Justified;
    LateStops();
    consumer := LateMessage();
    var p, n := consumer.RunWithRestarts(starts, rounds, true, 1);
    if p > 0 {
      FirstStops(Plain(), BookWith([]), consumer.streams.stream, p);
    }
    LateIsNothing(consumer.streams.stream, n);
    consumer.streams.Conserves();
  }
}
