/** The consumer as written is one of the pipeline's workers: whatever a call of `ProcessEntry` does
    is a run of the pipeline. */
module Entries {
  import opened Ledger
  import opened Settlement
  import opened Streams
  import opened Pipeline
  import opened Runs
  import opened Consumer
  import Refinement

  function BookIn(w: World): Book {
    Refinement.BookOf(w.ledger.db)
  }

  /** The worker judges its entry on the current book. */
  lemma JudgeNow(c: Config, worlds: seq<World>, steps: seq<Step>, k: nat)
    returns (worlds': seq<World>, steps': seq<Step>)
    requires Run(c, worlds, steps) && Busy(Last(worlds), k, Fetched)
    ensures Run(c, worlds', steps') && worlds <= worlds' && steps <= steps'
    ensures var w := Last(worlds);
            Last(worlds') ==
              if Accepts(c, BookIn(w), Parsed(Current(w, k)).value) then Staged(w, k, Accepted(BookIn(w)))
              else Staged(w, k, Rejected).(group :=
                w.group.(verdicts := w.group.verdicts[w.workers[k].batch[0] := BookIn(w)]))
  {
    hide Accepts, Parsed;
    assert CommittedIn(worlds[|worlds| - 1], BookIn(Last(worlds)));
    worlds', steps' := More(c, worlds, steps, Judge(k, BookIn(Last(worlds))));
  }

  /** From `w` to `w'` nothing has happened to the group but a verdict. */
  predicate SameGroup(g: Group, g': Group) {
    g == g'.(verdicts := g.verdicts)
  }

  /** An accepted entry is appended by the worker's transaction, which runs alone. */
  lemma AppendNow(c: Config, book0: Book, worlds: seq<World>, steps: seq<Step>, k: nat)
    returns (worlds': seq<World>, steps': seq<Step>, e: Entry)
    requires Run(c, worlds, steps) && AtRest(book0, Last(worlds).ledger) && Busy(Last(worlds), k, Fetched)
    requires Request(c, BookIn(Last(worlds)), Current(Last(worlds), k)).Some?
    ensures Run(c, worlds', steps') && worlds <= worlds' && steps <= steps'
    ensures AtRest(book0, Last(worlds').ledger) && SameGroup(Last(worlds).group, Last(worlds').group)
    ensures BookIn(Last(worlds')) == Settle(c, BookIn(Last(worlds)), Current(Last(worlds), k))
    ensures Last(worlds').workers == Last(worlds).workers[
              k := Last(worlds).workers[k].(stage := Persisting(0, |Last(worlds).ledger.log|))]
    ensures Last(worlds').ledger.log == Last(worlds).ledger.log + [e]
    ensures Answered(c, BookIn(Last(worlds)), Current(Last(worlds), k)) ==>
              Answers(c, Current(Last(worlds), k), 0, e)
  {
    hide AtRest, Parsed, Accepts, Append, Refinement.BookOf;
    var w := Last(worlds);
    worlds', steps' := JudgeNow(c, worlds, steps, k);
    worlds', steps', e := PersistAlone(c, book0, worlds', steps', k);
  }

  /** The worker hears of the commit. */
  lemma HearNow(c: Config, worlds: seq<World>, steps: seq<Step>, k: nat, since: nat)
    returns (worlds': seq<World>, steps': seq<Step>)
    requires Run(c, worlds, steps) && Busy(Last(worlds), k, Persisting(0, since))
    requires since < |Last(worlds).ledger.log|
    requires Answers(c, Current(Last(worlds), k), 0, Last(worlds).ledger.log[since])
    ensures Run(c, worlds', steps') && worlds <= worlds' && steps <= steps'
    ensures Last(worlds') == Staged(Last(worlds), k, Pipeline.Persisted)
  {
    hide Parsed, Readable, BidAt, TimeAt;
    worlds', steps' := More(c, worlds, steps, Answer(k, since));
  }

  function Acked(w: World, i: nat): Group {
    w.group.(pending := w.group.pending - {i}, acked := w.group.acked + {i})
  }

  /** The entry is acknowledged; the worker goes on, or dies because it has not heard the reply. */
  lemma AckNow(c: Config, worlds: seq<World>, steps: seq<Step>, k: nat, ok: bool)
    returns (worlds': seq<World>, steps': seq<Step>)
    requires Run(c, worlds, steps)
    requires Busy(Last(worlds), k, Rejected) || Busy(Last(worlds), k, Pipeline.Persisted)
    ensures Run(c, worlds', steps') && worlds <= worlds' && steps <= steps'
    ensures var w, w' := Last(worlds), Last(worlds');
            && w'.group == Acked(w, w.workers[k].batch[0])
            && w'.ledger == w.ledger
            && w'.workers == if ok then GoneOn(w, k) else w.workers - {k}
  {
    hide Parsed;
    worlds', steps' := More(c, worlds, steps, Acknowledge(k));
    if !ok && k in Last(worlds').workers {
      worlds', steps' := More(c, worlds', steps', Crash(k));
    }
  }

  /** The worker turns to the rest of its batch. */
  function GoneOn(w: World, k: nat): map<nat, Worker>
    requires k in w.workers && w.workers[k].batch != []
  {
    var rest := w.workers[k].batch[1..];
    if rest == [] then w.workers - {k} else w.workers[k := Worker(rest, Fetched)]
  }

  lemma DieNow(c: Config, worlds: seq<World>, steps: seq<Step>, k: nat)
    returns (worlds': seq<World>, steps': seq<Step>)
    requires Run(c, worlds, steps) && k in Last(worlds).workers
    ensures Run(c, worlds', steps') && worlds <= worlds' && steps <= steps'
    ensures Last(worlds') == Last(worlds).(workers := Last(worlds).workers - {k})
  {
    worlds', steps' := More(c, worlds, steps, Crash(k));
  }

  /** What one entry makes of a world: `settled` says that it has had its effect on the ledger, `acks`
      that it is acknowledged, and `ok` that the worker goes on. */
  ghost predicate EntryDone(c: Config, book0: Book, w: World, w': World, k: nat, ok: bool, settled: bool,
                            acks: bool)
    requires Busy(w, k, Fetched)
  {
    && AtRest(book0, w'.ledger)
    && BookIn(w') == (if settled then Settle(c, BookIn(w), Current(w, k)) else BookIn(w))
    && SameGroup(if acks then Acked(w, w.workers[k].batch[0]) else w.group, w'.group)
    && w'.workers == if ok then GoneOn(w, k) else w.workers - {k}
  }

  lemma AppendedIsRun(c: Config, book0: Book, worlds: seq<World>, steps: seq<Step>, k: nat)
    returns (worlds': seq<World>, steps': seq<Step>)
    requires Run(c, worlds, steps) && AtRest(book0, Last(worlds).ledger) && Busy(Last(worlds), k, Fetched)
    requires Request(c, BookIn(Last(worlds)), Current(Last(worlds), k)).Some?
    requires Answered(c, BookIn(Last(worlds)), Current(Last(worlds), k))
    ensures Run(c, worlds', steps') && worlds <= worlds' && steps <= steps'
    ensures AtRest(book0, Last(worlds').ledger) && SameGroup(Last(worlds).group, Last(worlds').group)
    ensures BookIn(Last(worlds')) == Settle(c, BookIn(Last(worlds)), Current(Last(worlds), k))
    ensures Last(worlds').workers == Last(worlds).workers[
              k := Last(worlds).workers[k].(stage := Pipeline.Persisted)]
  {
    hide AtRest, Parsed, Request, Settle, Answered, Answers, Refinement.BookOf;
    var e;
    worlds', steps', e := AppendNow(c, book0, worlds, steps, k);
    worlds', steps' := HearNow(c, worlds', steps', k, |Last(worlds).ledger.log|);
  }

  lemma AcceptedRequests(c: Config, book: Book, m: Message)
    requires Passes(c, book, m)
    ensures Accepts(c, book, Parsed(m).value) ==> Request(c, book, m).Some? && Answered(c, book, m)
    ensures !Accepts(c, book, Parsed(m).value) ==> Settle(c, book, m) == book
  {
  }

  /** An acknowledged entry: refused, or appended and answered. */
  lemma AckedEntryIsRun(c: Config, book0: Book, worlds: seq<World>, steps: seq<Step>, k: nat, ok: bool)
    returns (worlds': seq<World>, steps': seq<Step>)
    requires Run(c, worlds, steps) && AtRest(book0, Last(worlds).ledger) && Busy(Last(worlds), k, Fetched)
    requires Passes(c, BookIn(Last(worlds)), Current(Last(worlds), k))
    ensures Run(c, worlds', steps') && worlds <= worlds' && steps <= steps'
    ensures EntryDone(c, book0, Last(worlds), Last(worlds'), k, ok, true, true)
  {
    hide AtRest, Parsed, Accepts, Request, Settle, Answered, Refinement.BookOf, Passes;
    var w := Last(worlds);
    AcceptedRequests(c, BookIn(w), Current(w, k));
    if Accepts(c, BookIn(w), Parsed(Current(w, k)).value) {
      worlds', steps' := AppendedIsRun(c, book0, worlds, steps, k);
    } else {
      worlds', steps' := JudgeNow(c, worlds, steps, k);
    }
    worlds', steps' := AckNow(c, worlds', steps', k, ok);
  }

  lemma EntryIsRun(c: Config, book0: Book, worlds: seq<World>, steps: seq<Step>, k: nat, ok: bool,
                   settled: bool, acks: bool)
    returns (worlds': seq<World>, steps': seq<Step>)
    requires Run(c, worlds, steps) && AtRest(book0, Last(worlds).ledger) && Busy(Last(worlds), k, Fetched)
    requires ok ==> acks
    requires acks ==> settled && Passes(c, BookIn(Last(worlds)), Current(Last(worlds), k))
    ensures Run(c, worlds', steps') && worlds <= worlds' && steps <= steps'
    ensures EntryDone(c, book0, Last(worlds), Last(worlds'), k, ok, settled, acks)
  {
    hide AtRest, Parsed, Accepts, Append, Refinement.BookOf, Passes, Settle;
    var w := Last(worlds);
    if acks {
      worlds', steps' := AckedEntryIsRun(c, book0, worlds, steps, k, ok);
    } else {
      worlds', steps' := worlds, steps;
      if settled && Settle(c, BookIn(w), Current(w, k)) != BookIn(w) {
        NoRequestNoEffect(c, BookIn(w), Current(w, k));
        var e;
        worlds', steps', e := AppendNow(c, book0, worlds, steps, k);
      }
      worlds', steps' := DieNow(c, worlds', steps', k);
    }
  }

  lemma NoRequestNoEffect(c: Config, book: Book, m: Message)
    ensures Settle(c, book, m) != book ==> Request(c, book, m).Some?
  {
  }

  /** The consumer and the world agree on the stream, the group and the ledger. */
  ghost predicate Mirrors(w: World, consumer: LedgerConsumer)
    reads consumer.streams, consumer.ledger
  {
    && w.group.stream == consumer.streams.stream
    && w.group.delivered == consumer.streams.delivered
    && w.group.pending.Keys == consumer.streams.pending.Keys
    && w.group.acked == consumer.streams.acked
    && BookIn(w) == consumer.CommittedBook()
  }

  /** One call of `ProcessEntry` beside a run of the pipeline whose last world the consumer mirrors: the
      run goes on to a world that the consumer mirrors again. The worker judges, begins, hears and
      acknowledges, or dies on the way. */
  method ProcessEntryIsRun(consumer: LedgerConsumer, i: nat, ghost book0: Book, ghost worlds: seq<World>,
                           ghost steps: seq<Step>, ghost k: nat)
    returns (ok: bool, ghost worlds': seq<World>, ghost steps': seq<Step>)
    requires consumer.Valid() && i < consumer.streams.delivered
    requires Parsed(consumer.streams.stream[i]).Ok?
    requires Run(consumer.config, worlds, steps) && AtRest(book0, Last(worlds).ledger)
    requires Mirrors(Last(worlds), consumer) && Busy(Last(worlds), k, Fetched)
    requires Last(worlds).workers[k].batch[0] == i
    modifies consumer`log, consumer.streams`pending, consumer.streams`acked, consumer.ledger
    ensures consumer.Valid()
    ensures Run(consumer.config, worlds', steps') && worlds <= worlds' && steps <= steps'
    ensures AtRest(book0, Last(worlds').ledger) && Mirrors(Last(worlds'), consumer)
    ensures Last(worlds').workers == if ok then GoneOn(Last(worlds), k) else Last(worlds).workers - {k}
  {
    hide AtRest, Parsed, Passes, Settle, LedgerConsumer.Tracked, StreamStore.Valid, Discharged,
         Refinement.BookOf;
    ghost var settled, acks;
    ok, settled, acks := consumer.ProcessEntry(i);
    worlds', steps' := EntryIsRun(consumer.config, book0, worlds, steps, k, ok, settled, acks);
  }
}
