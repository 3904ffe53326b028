/**
 * The multi-choice grid card. Its total and percentages are those of
 * `Tally`; what it adds is a row of up to five stars per option.
 */
module MultiChoiceCard {
  import opened VotingTypes
  import opened Tally

  function Min(a: int, b: int): int {
    if a <= b then a else b
  }

  /** `Math.min(5, Math.floor(percentage / 10))`: one star per full ten percent, at most five. */
  function Stars(percentage: real): (stars: int)
    ensures 0.0 <= percentage ==> 0 <= stars <= 5
  {
    Min(5, (percentage / 10.0).Floor)
  }

  lemma FloorOfRatio(n: nat, d: nat)
    requires d > 0
    ensures (n as real / d as real).Floor == n / d
  {
    var q, r := n / d, n % d;
    assert (n as real) == (q as real) * (d as real) + (r as real);
    assert n as real / d as real == q as real + r as real / d as real;
  }

  lemma TenthOfPercentage(v: nat, total: nat)
    requires total > 0
    ensures Percentage(v, total, 0.0) / 10.0 == (10 * v) as real / total as real
  {
  }

  /**
   * An option's stars depend only on the integer tallies: `min(5, 10 * votes div total)`,
   * and none before any vote exists.
   */
  lemma StarsFromTallies(options: seq<PollOption>, i: nat)
    requires i < |options|
    ensures var total := SumVotes(options);
      Stars(OptionPercentage(options, i)) == if total == 0 then 0 else Min(5, (10 * options[i].votes) / total)
  {
    var total := SumVotes(options);
    if total > 0 {
      var v := options[i].votes;
      TenthOfPercentage(v, total);
      FloorOfRatio(10 * v, total);
    }
  }
}
