/**
 * The value types shared by the comment thread and the voting cards
 * (src/types/voting.ts). Presentation metadata (labels, emoji, image
 * URLs) is not part of the model.
 */
module VotingTypes {
  import opened Wrappers

  /** The three sentiments, used both as comment reactions and as the traditional card's options. */
  datatype Reaction = Gajjab | YestoNiHunxa | Bekar

  /**
   * A comment of the thread. `timestamp` stands for the `Date` the comment
   * was created at (milliseconds since the epoch); `votes` is the engagement
   * counter that every reaction increments.
   */
  datatype Comment = Comment(
    id: string,
    text: string,
    author: string,
    timestamp: int,
    votes: nat,
    reaction: Option<Reaction>)

  /** An option of the multi-choice and quick-poll cards: its id and its tally. */
  datatype PollOption = PollOption(id: string, votes: nat)
}
