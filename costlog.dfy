/**
 * The history of the search's `costs` table as the sequence of its writes,
 * used to state that a recorded cost only ever goes down.
 */
module CostLog {
  import opened Grids

  /** One assignment `costs[cell] = cost`. */
  datatype CostWrite = CostWrite(cell: Location, cost: nat)

  /** The table after performing the writes of `log` in order on an empty table. */
  ghost function Replay(log: seq<CostWrite>): map<Location, nat>
    decreases |log|
  {
    if log == [] then map[]
    else
      var w := log[|log| - 1];
      Replay(log[..|log| - 1])[w.cell := w.cost]
  }

  /** A write either records a cell without a cost or lowers the cell's cost strictly. */
  ghost predicate Improving(table: map<Location, nat>, w: CostWrite) {
    w.cell !in table || w.cost < table[w.cell]
  }

  ghost predicate OnlyImproving(log: seq<CostWrite>) {
    forall i :: 0 <= i < |log| ==> Improving(Replay(log[..i]), log[i])
  }

  lemma Append(log: seq<CostWrite>, w: CostWrite)
    requires OnlyImproving(log) && Improving(Replay(log), w)
    ensures OnlyImproving(log + [w])
    ensures Replay(log + [w]) == Replay(log)[w.cell := w.cost]
  {
    var log' := log + [w];
    assert log'[..|log|] == log;
    forall i | 0 <= i < |log'|
      ensures Improving(Replay(log'[..i]), log'[i])
    {
      if i < |log| {
        assert log'[..i] == log[..i];
      }
    }
  }

  /** Once a cell has a cost, later writes keep it in the table and never raise it. */
  lemma {:induction false} CostsOnlyDecrease(log: seq<CostWrite>, i: nat, j: nat)
    requires OnlyImproving(log) && i <= j <= |log|
    ensures forall c :: c in Replay(log[..i]) ==>
              c in Replay(log[..j]) && Replay(log[..j])[c] <= Replay(log[..i])[c]
    decreases j - i
  {
    if i < j {
      CostsOnlyDecrease(log, i, j - 1);
      assert log[..j][..j - 1] == log[..j - 1];
      assert Improving(Replay(log[..j - 1]), log[j - 1]);
    }
  }

  /** No cell of `m` loses its cost or gets a higher one in `m'`. */
  ghost predicate NoCostRaised(m: map<Location, nat>, m': map<Location, nat>) {
    forall c :: c in m ==> c in m' && m'[c] <= m[c]
  }

  /** Extending an only-improving history never raises a cost of the table it had built. */
  lemma ExtensionNoCostRaised(log: seq<CostWrite>, log': seq<CostWrite>)
    requires OnlyImproving(log') && log <= log'
    ensures NoCostRaised(Replay(log), Replay(log'))
  {
    CostsOnlyDecrease(log', |log|, |log'|);
    assert log'[..|log|] == log;
    assert log'[..|log'|] == log';
  }

  lemma NoCostRaisedTrans(m1: map<Location, nat>, m2: map<Location, nat>, m3: map<Location, nat>)
    requires NoCostRaised(m1, m2) && NoCostRaised(m2, m3)
    ensures NoCostRaised(m1, m3)
  {
  }

  /** Along a sequence of tables, no later table has lost a cell or raised a cost of an earlier one. */
  ghost predicate CostsNeverRaised(heads: seq<map<Location, nat>>) {
    forall i, j :: 0 <= i <= j < |heads| ==> NoCostRaised(heads[i], heads[j])
  }

  lemma AppendHead(heads: seq<map<Location, nat>>, m: map<Location, nat>)
    requires |heads| > 0 && CostsNeverRaised(heads)
    requires NoCostRaised(heads[|heads| - 1], m)
    ensures CostsNeverRaised(heads + [m])
  {
    var heads' := heads + [m];
    forall i, j | 0 <= i <= j < |heads'|
      ensures NoCostRaised(heads'[i], heads'[j])
    {
      if j == |heads| {
        if i < |heads| {
          NoCostRaisedTrans(heads[i], heads[|heads| - 1], m);
        }
      }
    }
  }
}
