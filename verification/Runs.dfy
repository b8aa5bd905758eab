/** Putting pipeline runs together, for the concrete runs of `Witnesses`. */
module Runs {
  import opened Ledger
  import opened Settlement
  import opened Pipeline
  import Transactions
  import Refinement
  import Progress

  function Last(worlds: seq<World>): World
    requires worlds != []
  {
    worlds[|worlds| - 1]
  }

  lemma More(c: Config, worlds: seq<World>, steps: seq<Step>, step: Step)
    returns (worlds': seq<World>, steps': seq<Step>)
    requires Run(c, worlds, steps) && Enabled(c, Last(worlds), step)
    requires step.Judge? ==> exists j: nat :: j < |worlds| && CommittedIn(worlds[j], step.snapshot)
    ensures Run(c, worlds', steps') && worlds' == worlds + [Next(c, Last(worlds), step)]
    ensures steps' == steps + [step]
  {
    hide Enabled, Next, CommittedIn;
    worlds', steps' := worlds + [Next(c, Last(worlds), step)], steps + [step];
    forall i | 0 <= i < |steps'| && steps'[i].Judge?
      ensures WasCommitted(worlds', i, steps'[i].snapshot)
    {
      if i < |steps| {
        assert WasCommitted(worlds, i, steps[i].snapshot);
        StillCommitted(worlds, worlds', i, steps[i].snapshot);
      } else {
        var j: nat :| j < |worlds| && CommittedIn(worlds[j], step.snapshot);
        assert CommittedIn(worlds'[j], step.snapshot);
      }
    }
  }

  lemma StillCommitted(worlds: seq<World>, worlds': seq<World>, i: nat, book: Book)
    requires WasCommitted(worlds, i, book) && worlds <= worlds'
    ensures WasCommitted(worlds', i, book)
  {
    var j: nat :| j <= i && j < |worlds| && CommittedIn(worlds[j], book);
    assert CommittedIn(worlds'[j], book);
  }

  /** A run of the ledger alone is a run of the pipeline. */
  lemma {:induction false} Lifted(c: Config, worlds: seq<World>, steps: seq<Step>,
                                  states: seq<Transactions.Sys>, moves: seq<Transactions.Step>)
    returns (worlds': seq<World>, steps': seq<Step>)
    requires Transactions.Run(states, moves)
    requires Run(c, worlds, steps) && Last(worlds).ledger == states[0]
    ensures Run(c, worlds', steps') && worlds <= worlds' && steps <= steps'
    ensures Last(worlds').ledger == states[|moves|]
    ensures Last(worlds').group == Last(worlds).group && Last(worlds').workers == Last(worlds).workers
    ensures forall i :: |steps| <= i < |steps'| ==> steps'[i].LedgerStep?
    decreases |moves|
  {
    hide Transactions.Next, Transactions.Enabled;
    if moves == [] {
      worlds', steps' := worlds, steps;
    } else {
      var n := |moves| - 1;
      LedgerPrefix(states, moves, n);
      worlds', steps' := Lifted(c, worlds, steps, states[..n + 1], moves[..n]);
      worlds', steps' := More(c, worlds', steps', LedgerStep(moves[n]));
    }
  }

  lemma LedgerPrefix(states: seq<Transactions.Sys>, moves: seq<Transactions.Step>, n: nat)
    requires Transactions.Run(states, moves) && n < |moves|
    ensures Transactions.Run(states[..n + 1], moves[..n])
    ensures Transactions.Enabled(states[n], moves[n])
    ensures states[n + 1] == Transactions.Next(states[n], moves[n])
  {
    hide Transactions.Next, Transactions.Enabled;
  }

  /** The ledger is at rest, after a history that explains it. */
  ghost predicate AtRest(book0: Book, ledger: Transactions.Sys) {
    Refinement.Inv(ledger) && Refinement.Refines(book0, ledger) && ledger.txs == map[]
  }

  /** The book has become what the atomic append makes of the message's bid. */
  predicate Appended(c: Config, book: Book, book': Book, m: Message) {
    && Readable(c, m)
    && var bid := BidAt(c, m);
       && bid.auctionId in book
       && book' == book[bid.auctionId := Append(AntiSnipe, book[bid.auctionId], bid, TimeAt(c, m)).0]
  }

  lemma BeginAlone(c: Config, book0: Book, w: World, k: nat)
    requires AtRest(book0, w.ledger) && k in w.workers && w.workers[k].stage.Accepted?
    requires Busy(w, k, w.workers[k].stage) && Readable(c, Current(w, k))
    ensures Enabled(c, w, Begin(k, 0))
    ensures var w' := Next(c, w, Begin(k, 0));
            && Refinement.Inv(w'.ledger) && Refinement.Refines(book0, w'.ledger)
            && w'.ledger.db == w.ledger.db && w'.ledger.log == w.ledger.log
            && w'.ledger.txs == map[0 := Transactions.Begun(AntiSnipe, BidAt(c, Current(w, k)),
                                                            TimeAt(c, Current(w, k)))]
            && w'.group == w.group
            && w'.workers == w.workers[k := w.workers[k].(stage := Persisting(0, |w.ledger.log|))]
  {
    hide Refinement.Inv, Refinement.Refines, Parsed;
    var step := Transactions.Begin(0, AntiSnipe, BidAt(c, Current(w, k)), TimeAt(c, Current(w, k)));
    assert Transactions.Enabled(w.ledger, step);
    Refinement.StepKeepsInv(w.ledger, step);
    Refinement.StepRefines(book0, w.ledger, step);
  }

  /** Worker `k`'s transaction runs alone and commits; the worker has not heard of it yet. */
  lemma PersistAlone(c: Config, book0: Book, worlds: seq<World>, steps: seq<Step>, k: nat)
    returns (worlds': seq<World>, steps': seq<Step>, e: Entry)
    requires Run(c, worlds, steps) && AtRest(book0, Last(worlds).ledger)
    requires k in Last(worlds).workers && Last(worlds).workers[k].stage.Accepted?
    requires Busy(Last(worlds), k, Last(worlds).workers[k].stage)
    requires Readable(c, Current(Last(worlds), k))
    requires BidAt(c, Current(Last(worlds), k)).auctionId in Refinement.BookOf(Last(worlds).ledger.db)
    ensures Run(c, worlds', steps') && worlds <= worlds' && steps <= steps'
    ensures AtRest(book0, Last(worlds').ledger)
    ensures Appended(c, Refinement.BookOf(Last(worlds).ledger.db),
                     Refinement.BookOf(Last(worlds').ledger.db), Current(Last(worlds), k))
    ensures e.tid == 0 && e.path == AntiSnipe
    ensures e.bid == BidAt(c, Current(Last(worlds), k)) && e.at == TimeAt(c, Current(Last(worlds), k))
    ensures Refinement.Agrees(Refinement.BookOf(Last(worlds).ledger.db), e)
    ensures Last(worlds').ledger.log == Last(worlds).ledger.log + [e]
    ensures Last(worlds').group == Last(worlds).group
    ensures Last(worlds').workers == Last(worlds).workers[
              k := Last(worlds).workers[k].(stage := Persisting(0, |Last(worlds).ledger.log|))]
    ensures forall i :: |steps| <= i < |steps'| ==> !steps'[i].Judge?
  {
    hide Enabled, Next, Refinement.Inv, Refinement.Refines, Readable, BidAt, TimeAt, Parsed,
         Refinement.BookOf, Append, Transactions.Run;
    var w := Last(worlds);
    BeginAlone(c, book0, w, k);
    worlds', steps' := More(c, worlds, steps, Begin(k, 0));
    var begun := Last(worlds');
    var states, moves;
    states, moves, e := Progress.RunsAlone(book0, begun.ledger, 0);
    worlds', steps' := Lifted(c, worlds', steps', states, moves);
    assert Last(worlds').workers
             == w.workers[k := w.workers[k].(stage := Persisting(0, |w.ledger.log|))];
  }
}
