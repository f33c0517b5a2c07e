/** Small value types shared by the scorers and the ingestion model. */
module Common {

  datatype Option<+T> = None | Some(value: T)

  /** `Math.min` on integers. */
  function Min(a: int, b: int): int
  {
    if a <= b then a else b
  }

  /** No element occurs twice. */
  predicate NoDuplicates<T(==)>(xs: seq<T>)
  {
    forall i, j :: 0 <= i < j < |xs| ==> xs[i] != xs[j]
  }

  lemma AppendAssociative<T>(a: seq<T>, b: seq<T>, c: seq<T>)
    ensures a + (b + c) == (a + b) + c
  {
  }

  /** The `{ rule, description }` pair that explains one contribution to a score. */
  datatype Reason = Reason(rule: string, description: string)

  /** The `UrgencyResult` shape returned by both scorers. */
  datatype UrgencyResult = UrgencyResult(score: int, reasons: seq<Reason>)
}
