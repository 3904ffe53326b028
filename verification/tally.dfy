/**
 * Result aggregation shared by the voting cards: the total of a list of
 * tallies, an option's share of it in percent, and which option is the
 * user's. Percentages are exact reals; the cards' `toFixed` display
 * rounding is not modelled.
 */
module Tally {
  import opened Wrappers
  import opened VotingTypes

  /** `options.reduce((sum, option) => sum + option.votes, 0)`, folded from the left. */
  function SumVotes(options: seq<PollOption>): (total: nat)
    ensures forall i :: 0 <= i < |options| ==> options[i].votes <= total
    ensures options == [] ==> total == 0
  {
    if options == [] then 0
    else SumVotes(options[..|options| - 1]) + options[|options| - 1].votes
  }

  /**
   * `totalVotes > 0 ? (votes / totalVotes) * 100 : whenNoVotes`. Every card
   * uses 0 for `whenNoVotes` except the face-off card, which uses 50.
   */
  function Percentage(votes: nat, total: nat, whenNoVotes: real): (pct: real)
    ensures total == 0 ==> pct == whenNoVotes
    ensures total > 0 ==> pct * (total as real) == (votes as real) * 100.0
    ensures total > 0 && votes <= total ==> 0.0 <= pct <= 100.0
    ensures total > 0 && votes == 0 ==> pct == 0.0
  {
    if total > 0 then (votes as real / total as real) * 100.0 else whenNoVotes
  }

  /** The percentage shown for option `i` of a multi-choice or quick-poll card. */
  function OptionPercentage(options: seq<PollOption>, i: nat): (pct: real)
    requires i < |options|
    ensures 0.0 <= pct <= 100.0
    ensures SumVotes(options) == 0 ==> pct == 0.0
  {
    Percentage(options[i].votes, SumVotes(options), 0.0)
  }

  /** The sum of the percentages of all options, each taken against `total`. */
  function PercentageSum(options: seq<PollOption>, total: nat): real {
    if options == [] then 0.0
    else PercentageSum(options[..|options| - 1], total) + Percentage(options[|options| - 1].votes, total, 0.0)
  }

  /** Percentages against one total add like the tallies they come from. */
  lemma PercentagesAdd(a: nat, b: nat, total: nat, whenNoVotes: real)
    requires total > 0
    ensures Percentage(a, total, whenNoVotes) + Percentage(b, total, whenNoVotes) == Percentage(a + b, total, whenNoVotes)
  {
  }

  lemma PercentageOfTotal(total: nat, whenNoVotes: real)
    requires total > 0
    ensures Percentage(total, total, whenNoVotes) == 100.0
  {
  }

  /** The percentages of all options, taken against one total, add up to the percentage of their sum. */
  lemma {:induction false} PercentageSumIsPercentageOfSum(options: seq<PollOption>, total: nat)
    requires total > 0
    ensures PercentageSum(options, total) == Percentage(SumVotes(options), total, 0.0)
  {
    if options != [] {
      var init := options[..|options| - 1];
      PercentageSumIsPercentageOfSum(init, total);
      PercentagesAdd(SumVotes(init), options[|options| - 1].votes, total, 0.0);
    }
  }

  /** When any vote has been cast, the exact percentages of all options add up to 100. */
  lemma PercentagesSumTo100(options: seq<PollOption>)
    requires SumVotes(options) > 0
    ensures PercentageSum(options, SumVotes(options)) == 100.0
  {
    PercentageSumIsPercentageOfSum(options, SumVotes(options));
    PercentageOfTotal(SumVotes(options), 0.0);
  }

  /** `userVote === option.id`: the option is highlighted as the user's choice. */
  predicate Selected(userVote: Option<string>, option: PollOption)
    ensures Selected(userVote, option) ==> userVote.Some? && userVote.value == option.id
  {
    userVote == Some(option.id)
  }

  ghost predicate DistinctIds(options: seq<PollOption>) {
    forall i, j :: 0 <= i < j < |options| ==> options[i].id != options[j].id
  }

  /** With distinct option ids, at most one option is highlighted, and only the one the user voted for. */
  lemma AtMostOneSelected(options: seq<PollOption>, userVote: Option<string>, i: nat, j: nat)
    requires DistinctIds(options)
    requires i < |options| && j < |options|
    requires Selected(userVote, options[i]) && Selected(userVote, options[j])
    ensures i == j && userVote == Some(options[i].id)
  {
  }
}
