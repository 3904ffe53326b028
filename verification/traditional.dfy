/**
 * The traditional three-way card: the gajjab / yesto-ni-hunxa / bekar
 * tallies, their total and percentages, and the card's own comment box.
 */
module TraditionalCard {
  import opened Wrappers
  import opened VotingTypes
  import opened Text
  import Tally

  datatype Results = Results(gajjab: nat, yestoNiHunxa: nat, bekar: nat)

  /** The `results` the card falls back on when none are passed in. */
  const DefaultResults := Results(0, 0, 0)

  function Votes(results: Results, option: Reaction): nat {
    match option
    case Gajjab => results.gajjab
    case YestoNiHunxa => results.yestoNiHunxa
    case Bekar => results.bekar
  }

  function TotalVotes(results: Results): (total: nat)
    ensures forall option :: Votes(results, option) <= total
    ensures total == 0 <==> results == DefaultResults
  {
    results.gajjab + results.yestoNiHunxa + results.bekar
  }

  /** The percentage shown beside an option: 0 for every option until some vote exists. */
  function Percentage(results: Results, option: Reaction): (pct: real)
    ensures 0.0 <= pct <= 100.0
    ensures TotalVotes(results) == 0 ==> pct == 0.0
  {
    Tally.Percentage(Votes(results, option), TotalVotes(results), 0.0)
  }

  /** Once any vote exists, the three exact percentages add up to 100. */
  lemma PercentagesSumTo100(results: Results)
    requires TotalVotes(results) > 0
    ensures Percentage(results, Gajjab) + Percentage(results, YestoNiHunxa) + Percentage(results, Bekar) == 100.0
  {
    var total := TotalVotes(results);
    Tally.PercentagesAdd(results.gajjab, results.yestoNiHunxa, total, 0.0);
    Tally.PercentagesAdd(results.gajjab + results.yestoNiHunxa, results.bekar, total, 0.0);
    Tally.PercentageOfTotal(total, 0.0);
  }

  /**
   * The card's comment box (shown only when an `onAddComment` handler is
   * passed). Unlike the post's comment form it has no word limit.
   */
  class CommentBox {
    const hasHandler: bool
    var newComment: string

    constructor (hasHandler: bool)
      ensures this.hasHandler == hasHandler && newComment == []
    {
      this.hasHandler := hasHandler;
      newComment := [];
    }

    /** The textarea's `onChange`: the draft takes whatever was typed. */
    method Change(text: string)
      modifies this
      ensures newComment == text
    {
      newComment := text;
    }

    /**
     * `handleAddComment`: forward the trimmed draft and clear it, only when it
     * is not blank and a handler exists; otherwise nothing changes.
     */
    method HandleAddComment() returns (posted: Option<string>)
      modifies this
      ensures posted.Some? <==> Trim(old(newComment)) != [] && hasHandler
      ensures posted.Some? ==> posted.value == Trim(old(newComment)) && WordCount(posted.value) >= 1
      ensures newComment == if posted.Some? then [] else old(newComment)
    {
      var trimmed := Trim(newComment);
      if trimmed != [] && hasHandler {
        WordCountOfTrim(newComment);
        WordCountZeroIffBlank(newComment);
        posted := Some(trimmed);
        newComment := [];
      } else {
        posted := None;
      }
    }
  }
}
