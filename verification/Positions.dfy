/** Sequences of stream positions: what settling them does, and why they may be acknowledged. */
module Positions {
  import opened Ledger
  import opened Settlement
  import opened Streams

  predicate InStream(ms: seq<Message>, positions: seq<nat>) {
    forall i :: 0 <= i < |positions| ==> positions[i] < |ms|
  }

  function MessagesAt(ms: seq<Message>, positions: seq<nat>): seq<Message>
    requires InStream(ms, positions)
  {
    seq(|positions|, i requires 0 <= i < |positions| => ms[positions[i]])
  }

  function Elements(s: seq<nat>): (e: set<nat>)
    ensures forall x :: x in e <==> x in s
  {
    set x | x in s
  }

  lemma {:induction false} IncreasingIsRange(s: seq<nat>, p: nat, q: nat)
    requires Increasing(s) && p <= q && forall i :: i in s <==> p <= i < q
    ensures s == Range(p, q)
  {
    assert forall j :: 0 <= j < |s| ==> s[j] in s;
    if s == [] {
      assert p !in s;
    } else {
      assert s[0] in s;
      var n := |s| - 1;
      assert q - 1 in s;
      var k :| 0 <= k < |s| && s[k] == q - 1;
      assert k == n;
      forall i ensures i in s[..n] <==> p <= i < q - 1 {
        if p <= i < q - 1 {
          assert i in s;
          var j :| 0 <= j < |s| && s[j] == i;
          assert s[..n][j] == i;
        }
        if i in s[..n] {
          var j :| 0 <= j < n && s[..n][j] == i;
          assert s[j] in s && s[j] < s[n];
        }
      }
      IncreasingIsRange(s[..n], p, q - 1);
    }
  }

  lemma {:induction false} IncreasingCount(s: seq<nat>)
    requires Increasing(s)
    ensures |Elements(s)| == |s|
  {
    if s == [] {
      assert Elements(s) == {};
    } else {
      var n := |s| - 1;
      IncreasingCount(s[..n]);
      assert s == s[..n] + [s[n]];
      assert Elements(s) == Elements(s[..n]) + {s[n]};
      assert s[n] !in s[..n];
    }
  }

  /** The first of the entries, in their order, are what took `before` to `after`. */
  ghost predicate Folds(c: Config, before: Book, after: Book, ms: seq<Message>, entries: seq<nat>,
                        settled: nat) {
    && InStream(ms, entries) && settled <= |entries|
    && after == SettleAll(c, before, MessagesAt(ms, entries[..settled]))
  }

  /** The first of the entries pass, each on what the ones before it leave. */
  ghost predicate FirstPass(c: Config, before: Book, ms: seq<Message>, entries: seq<nat>, acks: nat) {
    && InStream(ms, entries) && acks <= |entries|
    && AllPass(c, before, MessagesAt(ms, entries[..acks]))
  }

  lemma TakeOneMore(c: Config, book: Book, ms: seq<Message>, entries: seq<nat>, k: nat)
    requires InStream(ms, entries)
    requires k < |entries|
    ensures Elements(entries[..k + 1]) == Elements(entries[..k]) + {entries[k]}
    ensures SettleAll(c, book, MessagesAt(ms, entries[..k + 1]))
              == Settle(c, SettleAll(c, book, MessagesAt(ms, entries[..k])), ms[entries[k]])
  {
    hide Settle;
    assert entries[..k + 1] == entries[..k] + [entries[k]];
    var some, more := MessagesAt(ms, entries[..k]), MessagesAt(ms, entries[..k + 1]);
    assert more[..k] == some;
  }

  lemma TakeNone(c: Config, book: Book, ms: seq<Message>, entries: seq<nat>)
    requires InStream(ms, entries)
    ensures SettleAll(c, book, MessagesAt(ms, entries[..0])) == book
  {
  }

  lemma MessagesMore(c: Config, book: Book, ms: seq<Message>, entries: seq<nat>, k: nat)
    requires InStream(ms, entries)
    requires k < |entries|
    ensures AllPass(c, book, MessagesAt(ms, entries[..k + 1])) <==>
              && AllPass(c, book, MessagesAt(ms, entries[..k]))
              && Passes(c, SettleAll(c, book, MessagesAt(ms, entries[..k])), ms[entries[k]])
  {
    hide AllPass, Passes, SettleAll;
    AllPassMore(c, book, MessagesAt(ms, entries[..k]), ms[entries[k]]);
    assert MessagesAt(ms, entries[..k + 1]) == MessagesAt(ms, entries[..k]) + [ms[entries[k]]];
  }

  lemma NonePass(c: Config, book: Book, ms: seq<Message>, entries: seq<nat>)
    requires InStream(ms, entries)
    ensures AllPass(c, book, MessagesAt(ms, entries[..0]))
  {
  }

  lemma MessagesPrefix(c: Config, book: Book, ms: seq<Message>, entries: seq<nat>, k: nat)
    requires InStream(ms, entries)
    requires k <= |entries| && AllPass(c, book, MessagesAt(ms, entries))
    ensures AllPass(c, book, MessagesAt(ms, entries[..k]))
  {
    AllPassPrefix(c, book, MessagesAt(ms, entries), k);
    assert MessagesAt(ms, entries)[..k] == MessagesAt(ms, entries[..k]);
  }

  // ---- A consumer's history ----

  /** The book is what the positions of the history, in that order, make of the first one. */
  predicate Explained(c: Config, origin: Book, ms: seq<Message>, log: seq<nat>, book: Book) {
    && (forall k :: 0 <= k < |log| ==> log[k] < |ms|)
    && book == SettleAll(c, origin, MessagesAt(ms, log))
  }

  /** At some place of the history the message was let through: turned away by the hook, or
      answered by the ledger. */
  ghost predicate Justified(c: Config, origin: Book, ms: seq<Message>, log: seq<nat>, i: nat) {
    && (forall k :: 0 <= k < |log| ==> log[k] < |ms|)
    && exists k: nat :: k < |log| && log[k] == i && PassesAt(c, origin, ms, log, k)
  }

  predicate PassesAt(c: Config, origin: Book, ms: seq<Message>, log: seq<nat>, k: nat)
    requires forall j :: 0 <= j < |log| ==> log[j] < |ms|
    requires k < |log|
  {
    Passes(c, SettleAll(c, origin, MessagesAt(ms, log[..k])), ms[log[k]])
  }

  lemma NothingExplained(c: Config, origin: Book, ms: seq<Message>)
    ensures Explained(c, origin, ms, [], origin)
  {
  }

  lemma ExplainedMore(c: Config, origin: Book, ms: seq<Message>, log: seq<nat>, book: Book, i: nat)
    requires Explained(c, origin, ms, log, book) && i < |ms|
    ensures Explained(c, origin, ms, log + [i], Settle(c, book, ms[i]))
  {
    hide Settle;
    TakeOneMore(c, origin, ms, log + [i], |log|);
    assert (log + [i])[..|log|] == log && (log + [i])[..|log| + 1] == log + [i];
  }

  lemma JustifiedMore(c: Config, origin: Book, ms: seq<Message>, log: seq<nat>, j: nat, i: nat)
    requires Justified(c, origin, ms, log, i) && j < |ms|
    ensures Justified(c, origin, ms, log + [j], i)
  {
    hide Passes, SettleAll;
    var k: nat :| k < |log| && log[k] == i && PassesAt(c, origin, ms, log, k);
    assert (log + [j])[..k] == log[..k];
    assert PassesAt(c, origin, ms, log + [j], k);
  }

  lemma JustifiedNow(c: Config, origin: Book, ms: seq<Message>, log: seq<nat>, book: Book, i: nat)
    requires Explained(c, origin, ms, log, book) && i < |ms| && Passes(c, book, ms[i])
    ensures Justified(c, origin, ms, log + [i], i)
  {
    hide Passes, SettleAll;
    assert (log + [i])[..|log|] == log;
    assert PassesAt(c, origin, ms, log + [i], |log|);
  }

  /** Messages that arrive later change nothing of the history. */
  lemma ExplainedStays(c: Config, origin: Book, ms: seq<Message>, ms': seq<Message>, log: seq<nat>, book: Book)
    requires Explained(c, origin, ms, log, book) && ms <= ms'
    ensures Explained(c, origin, ms', log, book)
  {
    hide SettleAll;
    assert MessagesAt(ms', log) == MessagesAt(ms, log);
  }

  lemma JustifiedStays(c: Config, origin: Book, ms: seq<Message>, ms': seq<Message>, log: seq<nat>, i: nat)
    requires Justified(c, origin, ms, log, i) && ms <= ms'
    ensures Justified(c, origin, ms', log, i)
  {
    hide Passes, SettleAll;
    var k: nat :| k < |log| && log[k] == i && PassesAt(c, origin, ms, log, k);
    assert MessagesAt(ms', log[..k]) == MessagesAt(ms, log[..k]);
    assert PassesAt(c, origin, ms', log, k);
  }

  // ---- Settling in identifier order ----

  /** Processing the positions from `p` on, after a run that settled `n` messages. */
  lemma RangeSettles(c: Config, book0: Book, ms: seq<Message>, p: nat, n: nat, q: nat,
                     settled: nat, acks: nat)
    requires p <= n <= p + 1 && n <= |ms| && p <= q <= |ms|
    requires acks <= settled <= acks + 1 && settled <= q - p
    ensures Below(p) + Elements(Range(p, q)[..acks]) == Below(p + acks)
    ensures var n' := if n <= p + settled then p + settled else n;
            && p + acks <= n' <= p + acks + 1
            && SettleAll(c, SettleAll(c, book0, ms[..n]), MessagesAt(ms, Range(p, q)[..settled]))
                 == SettleAll(c, book0, ms[..n'])
  {
    hide SettleAll;
    var r := Range(p, q);
    assert MessagesAt(ms, r[..settled]) == ms[p..p + settled];
    Resettle(c, book0, ms, p, n, p + settled);
    forall i: nat ensures i in Elements(r[..acks]) <==> p <= i < p + acks {
      if p <= i < p + acks {
        assert r[..acks][i - p] == i;
      }
    }
  }

  lemma PassesInOrder(c: Config, book0: Book, ms: seq<Message>, p: nat, n: nat, q: nat)
    requires AllPass(c, book0, ms) && p <= n <= p + 1 && n <= |ms| && p <= q <= |ms|
    ensures AllPass(c, SettleAll(c, book0, ms[..n]), MessagesAt(ms, Range(p, q)))
  {
    hide AllPass, SettleAll;
    RestPasses(c, book0, ms, p, n, q);
    assert MessagesAt(ms, Range(p, q)) == ms[p..q];
  }

  lemma PassParses(c: Config, book0: Book, ms: seq<Message>, p: nat, q: nat)
    requires AllPass(c, book0, ms) && p <= q <= |ms|
    ensures AllParse(ms, Range(p, q))
  {
    hide SettleAll, Parsed;
    var r := Range(p, q);
    forall i | 0 <= i < |r| ensures r[i] < |ms| && Parsed(ms[r[i]]).Ok? {
      assert Passes(c, SettleAll(c, book0, ms[..r[i]]), ms[r[i]]);
    }
  }

  /** What passed before, and the acknowledged ones of the positions from `p` on. */
  lemma RangePasses(c: Config, book0: Book, ms: seq<Message>, p: nat, n: nat, q: nat, acks: nat)
    requires p <= n <= p + 1 && n <= |ms| && p <= q <= |ms| && acks <= q - p
    requires AllPass(c, book0, ms[..p])
    requires AllPass(c, SettleAll(c, book0, ms[..n]), MessagesAt(ms, Range(p, q)[..acks]))
    ensures AllPass(c, book0, ms[..p + acks])
  {
    hide AllPass, SettleAll;
    assert MessagesAt(ms, Range(p, q)[..acks]) == ms[p..p + acks];
    AllPassJoin(c, book0, ms, p, n, p + acks);
  }

  lemma IncreasingConcat(s: seq<nat>, t: seq<nat>, bound: nat)
    requires Increasing(s) && Increasing(t)
    requires (forall x :: x in s ==> x < bound) && (forall x :: x in t ==> bound <= x)
    ensures Increasing(s + t) && Elements(s + t) == Elements(s) + Elements(t)
  {
    var u := s + t;
    forall i, j | 0 <= i < j < |u| ensures u[i] < u[j] {
      assert i < |s| ==> u[i] in s;
      assert j >= |s| ==> u[j] in t;
    }
  }
}
