/**
 * The gallery: which option the user chose on each card (`votedCards`) and
 * which cards reveal their results (`showResults`), both keyed by card id.
 * Recording a vote only stores the choice; the tallies the cards display are
 * constants of the gallery and nothing changes them.
 */
module Gallery {
  import opened Wrappers
  import opened VotingTypes
  import Tally
  import TraditionalCard
  import FaceOffCard
  import YesNoCard
  import MultiChoiceCard

  /** What a card's `onVote` passes up; the gallery stores it as it is. */
  datatype Vote =
    | SentimentVote(sentiment: Reaction)
    | CandidateVote(side: FaceOffCard.Side)
    | AnswerVote(answer: YesNoCard.Answer)
    | OptionVote(optionId: string)

  const FaceOffId: string := "faceoff"
  const YesNoId: string := "yesno"
  const QuickPollId: string := "quickpoll"

  /** The tallies the gallery passes to its cards. Voting never changes them. */
  const TraditionalResults := TraditionalCard.Results(45, 23, 12)
  const FaceOffVotes1: nat := 156
  const FaceOffVotes2: nat := 134
  const FaceOffTimeLeft: int := 3600
  const MultiChoiceOptions := [PollOption("1", 89), PollOption("2", 123), PollOption("3", 67), PollOption("4", 45)]
  const YesNoResults := YesNoCard.Results(67, 45)
  const QuickPollOptions := [PollOption("1", 34), PollOption("2", 23), PollOption("3", 12), PollOption("4", 18), PollOption("5", 8)]

  /** The face-off card's countdown for the hour the gallery passes reads "60:00". */
  lemma FaceOffCountdownShown()
    ensures FaceOffCard.Countdown(Some(FaceOffTimeLeft)) == FaceOffCard.TimeLeft("60:00")
  {
    assert FaceOffCard.Decimal(60) == "60";
    assert FaceOffCard.PadStart(FaceOffCard.Decimal(0), 2, '0') == "00";
  }

  /** The shares every card shows for the gallery's tallies add up to 100. */
  lemma SharesShownSumTo100()
    ensures TraditionalCard.Percentage(TraditionalResults, Gajjab) + TraditionalCard.Percentage(TraditionalResults, YestoNiHunxa)
      + TraditionalCard.Percentage(TraditionalResults, Bekar) == 100.0
    ensures FaceOffCard.Percentage(FaceOffVotes1, FaceOffVotes2, FaceOffCard.Candidate1)
      + FaceOffCard.Percentage(FaceOffVotes1, FaceOffVotes2, FaceOffCard.Candidate2) == 100.0
    ensures YesNoCard.YesPercentage(YesNoResults) + YesNoCard.NoPercentage(YesNoResults) == 100.0
    ensures Tally.PercentageSum(MultiChoiceOptions, Tally.SumVotes(MultiChoiceOptions)) == 100.0
    ensures Tally.PercentageSum(QuickPollOptions, Tally.SumVotes(QuickPollOptions)) == 100.0
  {
    TraditionalCard.PercentagesSumTo100(TraditionalResults);
    FaceOffCard.PercentagesSumTo100(FaceOffVotes1, FaceOffVotes2);
    YesNoCard.PercentagesSumTo100(YesNoResults);
    Tally.PercentagesSumTo100(MultiChoiceOptions);
    Tally.PercentagesSumTo100(QuickPollOptions);
  }

  /** Of the 324 multi-choice votes, option 2's 123 (about 38%) draw three stars. */
  lemma MultiChoiceStarsShown()
    ensures MultiChoiceCard.Stars(Tally.OptionPercentage(MultiChoiceOptions, 1)) == 3
  {
    var o := MultiChoiceOptions;
    assert o[..1][..0] == [] && Tally.SumVotes(o[..1]) == 89;
    assert o[..2][..1] == o[..1] && Tally.SumVotes(o[..2]) == 212;
    assert o[..3][..2] == o[..2] && Tally.SumVotes(o[..3]) == 279;
    assert o[..3] == o[..|o| - 1];
    assert Tally.SumVotes(o) == 324;
    MultiChoiceCard.StarsFromTallies(MultiChoiceOptions, 1);
    assert (10 * 123) / 324 == 3;
  }

  class VotingGallery {
    var votedCards: map<string, Vote>
    var showResults: map<string, bool>
    /** The reveal timers `handleVote` has scheduled and that have not fired, oldest first. */
    var pendingReveals: seq<string>

    /**
     * Only `true` is ever written to `showResults`, only voted cards are
     * revealed, and a timer is pending only for a voted card.
     */
    ghost predicate Valid()
      reads this
    {
      && (forall c :: c in showResults ==> showResults[c] && c in votedCards)
      && (forall i :: 0 <= i < |pendingReveals| ==> pendingReveals[i] in votedCards)
    }

    /** Both maps start empty: no card is voted or revealed. */
    constructor ()
      ensures Valid()
      ensures votedCards == map[] && showResults == map[] && pendingReveals == []
    {
      votedCards := map[];
      showResults := map[];
      pendingReveals := [];
    }

    /**
     * The `showResults` prop of a card: an absent entry is the card's
     * default, `false`. Only a card with a recorded choice is revealed.
     */
    function IsRevealed(cardId: string): (revealed: bool)
      requires Valid()
      reads this
      ensures revealed ==> UserVote(cardId).Some?
    {
      cardId in showResults && showResults[cardId]
    }

    /** The `userVote` prop of a card: the recorded choice, or the card's default `null` when there is none. */
    function UserVote(cardId: string): (vote: Option<Vote>)
      reads this
      ensures vote.Some? <==> cardId in votedCards
      ensures vote.Some? ==> vote.value == votedCards[cardId]
    {
      if cardId in votedCards then Some(votedCards[cardId]) else None
    }

    /**
     * `handleVote`: store the choice, overwriting any earlier one (there is no
     * already-voted check here), and schedule the reveal of that card.
     */
    method HandleVote(cardId: string, vote: Vote)
      requires Valid()
      modifies this
      ensures Valid()
      ensures votedCards == old(votedCards)[cardId := vote]
      ensures showResults == old(showResults)
      ensures pendingReveals == old(pendingReveals) + [cardId]
      ensures UserVote(cardId) == Some(vote)
      ensures forall c :: c != cardId ==> UserVote(c) == old(UserVote(c)) && IsRevealed(c) == old(IsRevealed(c))
    {
      votedCards := votedCards[cardId := vote];
      pendingReveals := pendingReveals + [cardId];
    }

    /**
     * The oldest reveal timer fires (all have the same delay, so they fire in
     * the order scheduled) and its card's results are shown for good.
     */
    method FireRevealTimer() returns (cardId: string)
      requires Valid() && pendingReveals != []
      modifies this
      ensures Valid()
      ensures cardId == old(pendingReveals[0]) && pendingReveals == old(pendingReveals[1..])
      ensures showResults == old(showResults)[cardId := true]
      ensures votedCards == old(votedCards)
      ensures IsRevealed(cardId)
      ensures forall c :: old(IsRevealed(c)) ==> IsRevealed(c)
      ensures forall c :: c != cardId ==> IsRevealed(c) == old(IsRevealed(c))
    {
      cardId := pendingReveals[0];
      showResults := showResults[cardId := true];
      pendingReveals := pendingReveals[1..];
    }
  }
}
