/**
 * The min-priority frontier of the search. Entries are ordered by the
 * priority-only `operator<`, so among entries of equal priority the one
 * `std::priority_queue` puts on top is left unspecified.
 */
module Frontier {
  import opened Grids
  import opened Heuristic

  /** A `pair<unsigned int, Location>` on the queue: priority first. */
  datatype Entry = Entry(priority: nat, loc: Location)

  /**
   * The entry `min_queue.emplace(cost + hx(nb, goal), nb)` adds: its priority
   * is never below the cost, and it is the cost itself for the goal.
   */
  function Pushed(cost: nat, nb: Location, goal: Location): (e: Entry)
    ensures e.loc == nb && cost <= e.priority
    ensures nb == goal ==> e.priority == cost
  {
    Entry(cost + Hx(nb, goal), nb)
  }

  /** `operator<` on entries: compares the priorities only. */
  predicate Less(a: Entry, b: Entry) {
    a.priority < b.priority
  }

  /**
   * `Less` is the strict weak order `std::priority_queue` needs: irreflexive,
   * asymmetric and transitive, and two entries are unordered exactly when
   * their priorities tie, even when their cells differ.
   */
  lemma LessIsStrictWeakOrder(a: Entry, b: Entry, c: Entry)
    ensures !Less(a, a)
    ensures Less(a, b) ==> !Less(b, a)
    ensures Less(a, b) && Less(b, c) ==> Less(a, c)
    ensures !Less(a, b) && !Less(b, a) <==> a.priority == b.priority
  {
  }

  /** `e` may be the queue's top: no entry of the queue is `Less` than it. */
  predicate IsTop(e: Entry, q: multiset<Entry>) {
    e in q && forall d :: d in q ==> !Less(d, e)
  }

  /** The tops of a queue are exactly its entries of least priority. */
  lemma IsTopIsLeast(e: Entry, q: multiset<Entry>)
    ensures IsTop(e, q) <==> e in q && forall d :: d in q ==> e.priority <= d.priority
  {
  }

  /** Every non-empty frontier has a top, and the top has the least priority. */
  lemma {:induction false} TopExists(q: multiset<Entry>)
    requires q != multiset{}
    ensures exists e :: IsTop(e, q)
    ensures forall e, d :: IsTop(e, q) && d in q ==> e.priority <= d.priority
    decreases |q|
  {
    var x :| x in q;
    var rest := q - multiset{x};
    if rest == multiset{} {
      forall d | d in q
        ensures d == x
      {
        assert d != x ==> d in rest;
      }
      assert IsTop(x, q);
    } else {
      TopExists(rest);
      var e :| IsTop(e, rest);
      if Less(x, e) {
        assert IsTop(x, q);
      } else {
        forall d | d in q
          ensures !Less(d, e)
        {
          assert d != x ==> d in rest;
        }
        assert IsTop(e, q);
      }
    }
  }

  /** Entries that tie with a top are tops as well: the tie order is not determined. */
  lemma TiesAreTops(e: Entry, d: Entry, q: multiset<Entry>)
    requires IsTop(e, q) && d in q && d.priority == e.priority
    ensures IsTop(d, q)
  {
  }
}
