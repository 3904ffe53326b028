/**
 * The in-flight guard every voting card keeps. A click on an enabled button
 * sets `isVoting`; after the card's simulated delay it calls `onVote` with
 * the option clicked and clears `isVoting`. Buttons are disabled while a vote
 * is in flight or once results are shown, and that is the only thing that
 * stops a second vote on a card. The delay itself is not modelled: the click
 * and the resumption after the delay are two explicit steps.
 */
module VoteGuard {
  import opened Wrappers

  /** A card's vote buttons' `disabled` flag. */
  function Disabled(isVoting: bool, showResults: bool): (disabled: bool)
    ensures !disabled <==> !isVoting && !showResults
  {
    isVoting || showResults
  }

  /** A card's `isVoting` state and the option whose `onVote` call is pending. */
  class VoteButtons<O> {
    var isVoting: bool
    var inFlight: Option<O>

    ghost predicate Valid()
      reads this
    {
      isVoting <==> inFlight.Some?
    }

    constructor ()
      ensures Valid() && !isVoting
    {
      isVoting := false;
      inFlight := None;
    }

    /**
     * A click on `option`: ignored when the buttons are disabled, otherwise
     * `handleVote` starts (`setIsVoting(true)`) and waits.
     */
    method Click(option: O, showResults: bool) returns (started: bool)
      requires Valid()
      modifies this
      ensures Valid()
      ensures started <==> !Disabled(old(isVoting), showResults)
      ensures started ==> isVoting && inFlight == Some(option)
      ensures !started ==> isVoting == old(isVoting) && inFlight == old(inFlight)
    {
      started := !Disabled(isVoting, showResults);
      if started {
        isVoting := true;
        inFlight := Some(option);
      }
    }

    /**
     * The delay has elapsed: `onVote` is called exactly once, with the option
     * that was clicked, and `isVoting` is cleared.
     */
    method Settle() returns (vote: O)
      requires Valid() && isVoting
      modifies this
      ensures Valid() && !isVoting
      ensures old(inFlight) == Some(vote)
    {
      vote := inFlight.value;
      isVoting := false;
      inFlight := None;
    }
  }
}
