/** Five-component token totals and sums over tables of them. */
module UsageTotals {

  datatype Totals = Totals(input: nat, cached: nat, output: nat, reasoning: nat, total: nat)

  const Zero := Totals(0, 0, 0, 0, 0)

  function Add(a: Totals, b: Totals): Totals {
    Totals(a.input + b.input, a.cached + b.cached, a.output + b.output, a.reasoning + b.reasoning, a.total + b.total)
  }

  function SumSeq(rows: seq<Totals>): Totals {
    if rows == [] then Zero else Add(SumSeq(rows[..|rows| - 1]), rows[|rows| - 1])
  }

  lemma SumSeqSnoc(rows: seq<Totals>, row: Totals)
    ensures SumSeq(rows + [row]) == Add(SumSeq(rows), row)
  {
    assert (rows + [row])[..|rows|] == rows;
  }

  lemma {:induction false} SumSeqConcat(a: seq<Totals>, b: seq<Totals>)
    ensures SumSeq(a + b) == Add(SumSeq(a), SumSeq(b))
    decreases |b|
  {
    if b == [] {
      assert a + b == a;
    } else {
      var init, last := b[..|b| - 1], b[|b| - 1];
      SumSeqConcat(a, init);
      SumSeqSnoc(a + init, last);
      assert a + b == (a + init) + [last];
    }
  }

  // ---- Components ----

  datatype Part = Input | Cached | Output | Reasoning | Total

  function PartOf(t: Totals, p: Part): nat {
    match p
    case Input => t.input
    case Cached => t.cached
    case Output => t.output
    case Reasoning => t.reasoning
    case Total => t.total
  }

  lemma PartOfAdd(a: Totals, b: Totals, p: Part)
    ensures PartOf(Add(a, b), p) == PartOf(a, p) + PartOf(b, p)
  {
  }
}
