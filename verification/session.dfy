/**
 * A card inside the gallery, step by step: a click on the card's buttons,
 * the card's delay (500 ms, 300 ms on the quick poll), `onVote` reaching the
 * gallery's `handleVote`, and the gallery's reveal timer 500 ms after that.
 * The card's buttons are disabled by its own `isVoting` and by the
 * `showResults` the gallery passes down. A click is refused only while a
 * vote is in flight or once the card is revealed; a vote already in flight
 * when the reveal fires still reaches the gallery afterwards.
 */
module Session {
  import opened Wrappers
  import opened VoteGuard
  import opened Gallery

  /**
   * A click on an idle card followed by the card's delay, with no reveal
   * timer firing during the delay: accepted exactly when the gallery has not
   * revealed the card yet, in which case the choice replaces whatever the
   * gallery held for the card and a reveal is scheduled.
   */
  method CastVote(gallery: VotingGallery, buttons: VoteButtons<Vote>, cardId: string, vote: Vote) returns (accepted: bool)
    requires gallery.Valid() && buttons.Valid() && !buttons.isVoting
    modifies gallery, buttons
    ensures gallery.Valid() && buttons.Valid() && !buttons.isVoting
    ensures accepted <==> !old(gallery.IsRevealed(cardId))
    ensures accepted ==> gallery.votedCards == old(gallery.votedCards)[cardId := vote]
    ensures accepted ==> gallery.pendingReveals == old(gallery.pendingReveals) + [cardId]
    ensures !accepted ==> gallery.votedCards == old(gallery.votedCards) && gallery.pendingReveals == old(gallery.pendingReveals)
    ensures gallery.showResults == old(gallery.showResults)
  {
    accepted := buttons.Click(vote, gallery.IsRevealed(cardId));
    if accepted {
      var settled := buttons.Settle();
      gallery.HandleVote(cardId, settled);
    }
  }

  /**
   * On a card with a 500 ms delay, a second click made after the first
   * `onVote` is accepted (the card is not yet revealed), but its own delay
   * ends after the first reveal timer, which was set 500 ms after the first
   * `onVote`. So the results are first shown with the first choice
   * highlighted, and then the highlighted choice changes to the second one
   * while the results stay shown.
   */
  method ChoiceChangesAfterReveal(first: Vote, second: Vote)
    returns (secondAccepted: bool, shownBefore: Option<Vote>, revealedBefore: bool, recorded: Option<Vote>, revealed: bool)
    ensures secondAccepted
    ensures revealedBefore && shownBefore == Some(first)
    ensures revealed && recorded == Some(second)
  {
    var gallery := new VotingGallery();
    var buttons := new VoteButtons<Vote>();
    // t = 0: the first click; t = 500: its `onVote`, which sets the reveal timer for t = 1000.
    var firstAccepted := buttons.Click(first, gallery.IsRevealed(YesNoId));
    var firstVote := buttons.Settle();
    gallery.HandleVote(YesNoId, firstVote);
    // 500 < t1 < 1000: the second click, while the card is not yet revealed.
    secondAccepted := buttons.Click(second, gallery.IsRevealed(YesNoId));
    // t = 1000: the reveal timer fires before the second click's delay ends at t1 + 500.
    var revealedCard := gallery.FireRevealTimer();
    shownBefore := gallery.UserVote(YesNoId);
    revealedBefore := gallery.IsRevealed(YesNoId);
    // t1 + 500: the second `onVote` overwrites the choice of the revealed card.
    var secondVote := buttons.Settle();
    gallery.HandleVote(YesNoId, secondVote);
    recorded := gallery.UserVote(YesNoId);
    revealed := gallery.IsRevealed(YesNoId);
  }

  /**
   * On the quick poll, whose delay is 300 ms, a second click made between
   * 300 ms and 500 ms reaches the gallery before the first reveal timer
   * (set for 800 ms): the second choice is recorded before results are
   * shown, and it is the one shown.
   */
  method SecondVoteBeforeReveal(first: Vote, second: Vote) returns (recorded: Option<Vote>, revealed: bool)
    ensures recorded == Some(second) && revealed
  {
    var gallery := new VotingGallery();
    var buttons := new VoteButtons<Vote>();
    var firstAccepted := CastVote(gallery, buttons, QuickPollId, first);
    var secondAccepted := CastVote(gallery, buttons, QuickPollId, second);
    var firstTimer := gallery.FireRevealTimer();
    var secondTimer := gallery.FireRevealTimer();
    recorded := gallery.UserVote(QuickPollId);
    revealed := gallery.IsRevealed(QuickPollId);
  }

  /** Once the card is revealed, a further click is ignored and the first vote stays. */
  method NoVoteAfterReveal(first: Vote, second: Vote) returns (accepted: bool, recorded: Option<Vote>)
    ensures !accepted && recorded == Some(first)
  {
    var gallery := new VotingGallery();
    var buttons := new VoteButtons<Vote>();
    var firstAccepted := CastVote(gallery, buttons, YesNoId, first);
    var timer := gallery.FireRevealTimer();
    accepted := CastVote(gallery, buttons, YesNoId, second);
    recorded := gallery.UserVote(YesNoId);
  }

  /**
   * A second click while the first vote is still in flight is ignored: only
   * the first choice reaches `onVote`.
   */
  method DoubleClickInFlight(first: Vote, second: Vote) returns (secondStarted: bool, reported: Vote)
    ensures !secondStarted && reported == first
  {
    var buttons := new VoteButtons<Vote>();
    var firstStarted := buttons.Click(first, false);
    secondStarted := buttons.Click(second, false);
    reported := buttons.Settle();
  }

  /** Votes on different cards are kept apart: each card keeps its own choice. */
  method VotesOnTwoCards(a: Vote, b: Vote) returns (onYesNo: Option<Vote>, onQuickPoll: Option<Vote>, onFaceOff: Option<Vote>)
    ensures onYesNo == Some(a) && onQuickPoll == Some(b) && onFaceOff == None
  {
    var gallery := new VotingGallery();
    var yesNo := new VoteButtons<Vote>();
    var quickPoll := new VoteButtons<Vote>();
    var first := CastVote(gallery, yesNo, YesNoId, a);
    var second := CastVote(gallery, quickPoll, QuickPollId, b);
    onYesNo := gallery.UserVote(YesNoId);
    onQuickPoll := gallery.UserVote(QuickPollId);
    onFaceOff := gallery.UserVote(FaceOffId);
  }
}
