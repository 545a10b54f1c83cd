/// The final line every checker prints from its totals.
module Reports {
  import opened Aggregates

  /** "%.4f Average response time from %d sites, %d Unknown", or, when no
      site answered, "No Average response time from 0 sites, %d Unknown". */
  datatype Report = Average(average: real, sites: int, unknown: int) | NoAverage(unknown: int)

  /** The report of a record: the average is computed only when at least
      one site answered, so there is never a division by zero. */
  function MakeReport(a: Aggregate): (r: Report)
    ensures r.Average? <==> a.amount > 0
    ensures r.Average? ==> r.sites == a.amount && r.average * (a.amount as real) == a.sum
    ensures r.unknown == a.unknown
  {
    if a.amount > 0 then Average(a.sum / (a.amount as real), a.amount, a.unknown)
    else NoAverage(a.unknown)
  }
}
