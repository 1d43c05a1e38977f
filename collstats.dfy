/**
 * Collection statistics of a one-document universe: fixed values and a merge that changes
 * nothing. The summed term frequency is a known approximation (it is not the real total).
 */
module CollStats {

  datatype CollectionStats = CollectionStats {

    function TotalDocumentCount(): (n: nat)
      ensures n == 1
    {
      1
    }

    /** How many documents hold the field: the one document. */
    function DocumentCount(): (n: nat)
      ensures n == 1
    {
      1
    }

    /** Reported as 1 whatever the field's token count; scoring sees this fixed value. */
    function SumTotalTermFrequency(): (n: nat)
      ensures n == 1
    {
      1
    }

    /** Merging in another collection's statistics leaves these unchanged. */
    function Merge(other: CollectionStats): (r: CollectionStats)
      ensures r == this
      ensures r.TotalDocumentCount() == 1 && r.DocumentCount() == 1 && r.SumTotalTermFrequency() == 1
    {
      this
    }
  }

  /** The one statistics value the adapter hands out for every field. */
  function CollStats(): (r: CollectionStats)
    ensures r.TotalDocumentCount() == 1 && r.DocumentCount() == 1 && r.SumTotalTermFrequency() == 1
    ensures forall other :: r.Merge(other) == r
  {
    CollectionStats
  }
}
