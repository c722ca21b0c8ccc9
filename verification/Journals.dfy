/** Journals: entries with growing, possibly sparse sequence numbers, and what
  streaming one from a sequence number delivers. */
module Journals {

  datatype Entry<E> = Entry(sequence: nat, event: E)

  ghost predicate Ordered<E>(entries: seq<Entry<E>>) {
    forall i, j | 0 <= i < j < |entries| :: entries[i].sequence < entries[j].sequence
  }

  /** The journal from a sequence number on, as `stream_from` delivers it. */
  function StreamFrom<E>(journal: seq<Entry<E>>, start: nat): seq<Entry<E>> {
    if journal == [] then []
    else (if journal[0].sequence >= start then [journal[0]] else []) + StreamFrom(journal[1..], start)
  }

  lemma {:induction false} StreamAll<E>(journal: seq<Entry<E>>, start: nat)
    requires forall i | 0 <= i < |journal| :: journal[i].sequence >= start
    ensures StreamFrom(journal, start) == journal
  {
    if journal != [] {
      StreamAll(journal[1..], start);
    }
  }

  /** Streaming from just after a recorded sequence delivers exactly the later
    entries, however large the gaps between sequence numbers are. */
  lemma {:induction false} StreamIsTail<E>(journal: seq<Entry<E>>, n: nat)
    requires Ordered(journal) && 1 <= n <= |journal|
    ensures StreamFrom(journal, journal[n - 1].sequence + 1) == journal[n..]
    decreases |journal|
  {
    if n == 1 {
      StreamAll(journal[1..], journal[0].sequence + 1);
    } else {
      StreamIsTail(journal[1..], n - 1);
      assert journal[1..][n - 2] == journal[n - 1];
      assert journal[1..][n - 1..] == journal[n..];
    }
  }
}
