/** The consumption-record data the pagination core and the category views work on. */
module Records {

  /** One transaction line of a consumption record. Amounts are signed (refunds are negative). */
  datatype Detail = Detail(date: string, amount: int, store: string, cardLastFour: string, category: string)

  /** Sum of the amounts of a list of details, as `reduce((sum, d) => sum + d.amount, 0)`. */
  function SumAmounts(ds: seq<Detail>): int {
    if |ds| == 0 then 0 else SumAmounts(ds[..|ds| - 1]) + ds[|ds| - 1].amount
  }

  /** Summing distributes over concatenation. */
  lemma {:induction false} SumAmountsAppend(a: seq<Detail>, b: seq<Detail>)
    ensures SumAmounts(a + b) == SumAmounts(a) + SumAmounts(b)
    decreases |b|
  {
    if |b| == 0 {
      assert a + b == a;
    } else {
      assert (a + b)[..|a + b| - 1] == a + b[..|b| - 1];
      SumAmountsAppend(a, b[..|b| - 1]);
    }
  }

  /** A displayed percentage. `Ratio(part, whole)` stands for the rounded floating-point value
      `Math.round(part / whole * 100)`, which the model leaves unevaluated. */
  datatype Percent = Fixed(value: int) | Ratio(part: int, whole: int)

  /** A category of the category view: a pie slice and an expandable list of its details. */
  datatype Category = Category(
    name: string,
    amount: int,
    percentage: Percent,
    color: string,
    details: seq<Detail>,
    isExpanded: bool)
}
