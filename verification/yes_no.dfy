/** The yes/no card: two tallies and their percentages, 0 each when nobody has voted. */
module YesNoCard {
  import Tally

  datatype Answer = Yes | No

  datatype Results = Results(yes: nat, no: nat)

  /** The `results` the card falls back on when none are passed in. */
  const DefaultResults := Results(0, 0)

  function TotalVotes(results: Results): (total: nat)
    ensures results.yes <= total && results.no <= total
    ensures total == 0 <==> results == DefaultResults
  {
    results.yes + results.no
  }

  /** The yes share; 0 when nobody has voted (unlike the face-off card, which shows 50). */
  function YesPercentage(results: Results): (pct: real)
    ensures 0.0 <= pct <= 100.0
    ensures TotalVotes(results) == 0 ==> pct == 0.0
  {
    Tally.Percentage(results.yes, TotalVotes(results), 0.0)
  }

  /** The no share; 0 when nobody has voted. */
  function NoPercentage(results: Results): (pct: real)
    ensures 0.0 <= pct <= 100.0
    ensures TotalVotes(results) == 0 ==> pct == 0.0
  {
    Tally.Percentage(results.no, TotalVotes(results), 0.0)
  }

  /** With votes, the yes and no shares add up to 100. */
  lemma PercentagesSumTo100(results: Results)
    requires TotalVotes(results) > 0
    ensures YesPercentage(results) + NoPercentage(results) == 100.0
  {
    Tally.PercentagesAdd(results.yes, results.no, TotalVotes(results), 0.0);
    Tally.PercentageOfTotal(TotalVotes(results), 0.0);
  }
}
