/**
 * The quick-poll card. Its total and percentages are those of `Tally`; what
 * it adds is the ripple drawn on the chosen option until results appear.
 */
module QuickPollCard {
  import opened Wrappers
  import opened VotingTypes
  import opened Tally

  /** `isSelected && !showResults`: the ripple marks the user's choice only until results are revealed. */
  function ShowsRipple(userVote: Option<string>, option: PollOption, showResults: bool): (ripple: bool)
    ensures ripple ==> userVote == Some(option.id)
    ensures showResults ==> !ripple
  {
    Selected(userVote, option) && !showResults
  }

  /** The percentages of the poll add up to 100 once any vote exists, and are all 0 before. */
  lemma Percentages(options: seq<PollOption>)
    ensures SumVotes(options) > 0 ==> PercentageSum(options, SumVotes(options)) == 100.0
    ensures SumVotes(options) == 0 ==> forall i :: 0 <= i < |options| ==> OptionPercentage(options, i) == 0.0
  {
    if SumVotes(options) > 0 {
      PercentagesSumTo100(options);
    }
  }
}
