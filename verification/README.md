# Voting cards and comments: a Dafny model

This project models the interactive core of a civic voting and commenting
front end:

- **The comment form of a post.** A post's category fixes the form's word
  limit: 20 for daily posts, 100 otherwise. The form keeps a live word
  count, computed as trim, split on whitespace, then drop empty pieces. It
  refuses an edit that would exceed the limit. It shows a warning once
  fewer than five words remain. It submits the trimmed draft only when the
  draft is not blank and the last count is within the limit.
- **The application's comment thread and display language.** New comments
  are prepended, so the thread is newest first. Reacting to a comment
  replaces its reaction and adds one to its engagement counter. The
  language toggles between English and Nepali.
- **The voting-cards gallery.** The gallery records the user's choice per
  card and reveals a card's results 500 ms after a vote. It passes constant
  tallies to its five cards.
- **The five voting cards.**
  - Each card has the same in-flight guard: buttons are disabled while a
    vote is in flight or once results are shown.
  - Each card shows percentage shares of its tallies. Shares are 0 before
    any vote, except on the face-off card, which shows an even 50/50.
  - The traditional card has a comment box.
  - The face-off card shows an `m:ss` countdown.
  - The multi-choice card draws up to five stars per option.
  - The quick-poll card draws a ripple on the chosen option until results
    appear.

Modules, one per source component plus shared pieces:

| module | file | models |
|---|---|---|
| `Wrappers` | wrappers.dfy | `Option` |
| `VotingTypes` | voting_types.dfy | the comment record, the three reactions, a poll option |
| `Text` | text.dfy | `trim`, `split(/\s+/)` and the word count |
| `CommentSystem` | comment_system.dfy | the comment form (class `CommentForm`) |
| `App` | app.dfy | the thread and language state (class `AppState`) and their list updates |
| `Tally` | tally.dfy | totals, percentage shares and the "selected" highlight shared by the cards |
| `TraditionalCard`, `YesNoCard`, `FaceOffCard`, `MultiChoiceCard`, `QuickPollCard` | traditional.dfy, yes_no.dfy, face_off.dfy, multi_choice.dfy, quick_poll.dfy | each card's own display rules |
| `VoteGuard` | vote_guard.dfy | a card's `isVoting` guard (class `VoteButtons`) |
| `Gallery` | gallery.dfy | the gallery's vote and reveal maps (class `VotingGallery`) |
| `Session` | session.dfy | a card and the gallery together, step by step |

The React state hooks become classes whose methods update fields. The
list and map updates passed to those hooks become functions. Timers and
awaited delays become explicit steps:

- `VoteButtons.Click` is the click.
- `VoteButtons.Settle` is the card's delay elapsing.
- `VotingGallery.FireRevealTimer` is the gallery's reveal timer firing.

The gallery's timers all have the same delay, so they fire in the order
they were scheduled. The model keeps them as a first-in, first-out queue.
The scenarios in `Session` step through the events in the order the delays
produce: 500 ms for the traditional, face-off, multi-choice and yes/no
cards, 300 ms for the quick poll, and 500 ms from a recorded vote to its
reveal.

Two behaviours of the code matter for the model:

- **Voting never changes a tally.** The gallery's tallies are constants,
  and its `handleVote` only stores the choice.
- **The gallery has no already-voted check.** A card refuses a second vote
  only through its disabled buttons. Between the card's `onVote` and the
  gallery's reveal timer, the buttons are enabled again.
  - On a 500 ms card, a second click in that window lands after the reveal.
    The results first show the first choice, then the highlighted choice
    changes to the second (`Session.ChoiceChangesAfterReveal`).
  - On the 300 ms quick poll, the second choice can arrive before the
    reveal (`Session.SecondVoteBeforeReveal`).

The face-off card renders `{timeLeft && timeLeft > 0 && (...)}`. When
`timeLeft` is 0, that expression is the number 0, which is rendered as the
text "0". `FaceOffCard.Countdown` models this as `StrayZero`.

## Model

| member | source | states |
|---|---|---|
| Text.Trim | src/components/CommentSystem.tsx:29 | `trim()` never lengthens the text; `TrimIsSlice` states that it keeps one contiguous piece and drops only whitespace around it. |
| Text.TrimIsSlice | src/components/CommentSystem.tsx:29 | The trimmed text is a contiguous slice of the text, and everything before and after that slice is whitespace. |
| Text.Split | src/components/CommentSystem.tsx:29 | `split(/\s+/)` always yields at least one piece, and the empty text yields one empty piece; `SplitKeepsText` states what the pieces hold. |
| Text.SplitKeepsText | src/components/CommentSystem.tsx:29 | The pieces of `split(/\s+/)`, joined, are exactly the text's non-whitespace characters in their original order. |
| Text.SplitFromConcat | src/components/CommentSystem.tsx:29 | Splitting the rest of a text after a partly built piece keeps that piece in front of the rest's non-whitespace characters, in order. |
| Text.NonSpaceDropSpaces | src/components/CommentSystem.tsx:29 | Skipping a leading run of whitespace removes no non-whitespace character. |
| Text.NonEmpty | src/components/CommentSystem.tsx:29 | The filter keeps every non-empty piece and only those: each kept piece is non-empty and one of the input's, and each non-empty input piece is kept; `NonEmptyKeepsEvery` states that every occurrence is kept. |
| Text.NonEmptyKeepsEvery | src/components/CommentSystem.tsx:29-30 | The filter keeps each non-empty piece exactly as many times as it occurs and drops every empty piece, so `words.length` counts repeated words each time. |
| Text.WordCount | src/components/CommentSystem.tsx:29-30 | The empty text has no words. |
| Text.WordCountIsWordStarts | src/components/CommentSystem.tsx:29-30 | The trim, split and filter pipeline counts exactly the positions where a word begins after whitespace or at the start. |
| Text.WordCountZeroIffBlank | src/components/CommentSystem.tsx:29-30 | The count is 0 exactly when the text is empty or all whitespace, and exactly when its trim is empty. |
| Text.TrimEmptyIffAllSpace | src/components/CommentSystem.tsx:39 | `trim()` yields the empty, falsy string exactly when the text is all whitespace. |
| Text.TrimIdempotent | src/components/CommentSystem.tsx:39-40 | A trimmed text starts and ends with non-whitespace, and trimming it again changes nothing. |
| Text.WordCountOfTrim | src/components/CommentSystem.tsx:39-40 | Trimming does not change the word count. |
| Text.WordsAreWords | src/components/CommentSystem.tsx:29 | Every counted word is non-empty and contains no whitespace. |
| Text.StartsZeroIffAllSpace | src/components/CommentSystem.tsx:29-30 | The reference count is 0 exactly for all-whitespace text. |
| Text.SplitFromCount | src/components/CommentSystem.tsx:29 | Splitting on whitespace runs and dropping empty pieces leaves one piece per word start. |
| CommentSystem.MaxWords | src/components/CommentSystem.tsx:26 | The limit is 20 exactly for daily posts and 100 exactly for the other four categories. |
| CommentSystem.WordsRemaining | src/components/CommentSystem.tsx:99-100 | The words left plus the words typed equal the limit; the value is negative exactly when over the limit. |
| CommentSystem.ShowsWarning | src/components/CommentSystem.tsx:80 | The warning and the red counter show exactly when fewer than five words remain, and always when over the limit. |
| CommentSystem.SubmitBlocked | src/components/CommentSystem.tsx:88 | Submitting is allowed exactly when the draft has at least one word and the last count is within the limit. |
| CommentSystem.Edit | src/components/CommentSystem.tsx:28-35 | The count always becomes the count of the typed text. The draft becomes the typed text exactly when it is within the limit, and otherwise stays as it was. A draft within the limit stays within it. |
| CommentSystem.EditsKeepDraftWithinLimit | src/components/CommentSystem.tsx:28-35 | After any sequence of edits the stored draft is within the limit, and it is the starting draft or one of the texts typed. |
| CommentSystem.CommentForm.constructor | src/components/CommentSystem.tsx:22-26 | The form starts with an empty draft, a count of 0 and the category's limit. |
| CommentSystem.CommentForm.HandleCommentChange | src/components/CommentSystem.tsx:28-35 | The new draft and count are those of `Edit`. The draft stays within the limit, and a count within the limit is the draft's own count. |
| CommentSystem.CommentForm.Reset | src/components/CommentSystem.tsx:41-42 | After a submission the draft is empty and the count is 0, which keeps the form valid. |
| CommentSystem.CommentForm.HandleSubmit | src/components/CommentSystem.tsx:37-44 | Something is submitted exactly when submit is not blocked. What is submitted is the trimmed draft, with no surrounding whitespace and exactly the word count that was checked (1 to limit), and the form is then reset. Otherwise nothing changes. |
| App.Toggle | src/App.tsx:31-33 | The language always changes. |
| App.ToggleTwice | src/App.tsx:31-33 | Toggling twice restores the language. |
| App.AddComment | src/App.tsx:35-45 | The new comment comes first, with the given text, id, author and time, no votes and no reaction; the earlier thread follows unchanged. |
| App.AddTwice | src/App.tsx:44 | The thread is newest first: of two additions the later one ends up in front. |
| App.Reacted | src/App.tsx:50 | A reacted comment carries the chosen reaction and one more vote, and keeps its id, text, author and time. |
| App.Highlighted | src/components/CommentSystem.tsx:139 | A highlighted button is the comment's current reaction. |
| App.React | src/App.tsx:47-53 | Reacting keeps the thread's length. |
| App.ReactEffect | src/App.tsx:47-53 | Every comment with the id gets the chosen reaction and one more vote and keeps its other fields. Every other comment, and the order, is unchanged. |
| App.ReactUnknownId | src/App.tsx:47-53 | Reacting with an id no comment has leaves the thread unchanged. |
| App.ReactRepeatedly | src/App.tsx:47-53 | After several reactions to one comment, the last one wins and its counter has grown by their number. Other comments are untouched. |
| App.ReactTotalVotes | src/App.tsx:50 | One reaction adds exactly one vote per comment carrying the id. |
| App.ReactHighlightsChosen | src/components/CommentSystem.tsx:137-139 | After reacting, exactly the chosen reaction button of that comment is highlighted. |
| App.AppState.constructor | src/App.tsx:11-29 | The app starts in English with the two sample comments (votes 12 and 8, the second an hour older). |
| App.AppState.HandleLanguageToggle | src/App.tsx:31-33 | The language is toggled and the thread is unchanged. |
| App.AppState.HandleAddComment | src/App.tsx:35-45 | The thread becomes `AddComment` of the old thread, and the language is unchanged. |
| App.AppState.HandleReactToComment | src/App.tsx:47-53 | The thread becomes `React` of the old thread, and the language is unchanged. |
| Tally.SumVotes | src/components/voting-cards/MultiChoiceGridCard.tsx:38 | The total is at least every option's votes, and 0 for no options. |
| Tally.Percentage | src/components/voting-cards/YesNoCard.tsx:34-36 | With no votes the share is the card's fallback. Otherwise share × total = votes × 100, the share lies in 0..100, and it is 0 for an option with no votes. |
| Tally.OptionPercentage | src/components/voting-cards/MultiChoiceGridCard.tsx:59 | An option's share lies in 0..100 and is 0 before any vote. |
| Tally.PercentagesAdd | src/components/voting-cards/QuickPollCard.tsx:58 | Shares of one total add up like the tallies they come from. |
| Tally.PercentageOfTotal | src/components/voting-cards/QuickPollCard.tsx:58 | The total's own share is 100. |
| Tally.PercentageSumIsPercentageOfSum | src/components/voting-cards/QuickPollCard.tsx:37-58 | The options' shares add up to the share of their summed tallies. |
| Tally.PercentagesSumTo100 | src/components/voting-cards/MultiChoiceGridCard.tsx:38-59 | Once any vote exists, the exact shares of all options add up to 100. |
| Tally.Selected | src/components/voting-cards/MultiChoiceGridCard.tsx:60 | An option is highlighted only when the user's vote is that option's id. |
| Tally.AtMostOneSelected | src/components/voting-cards/MultiChoiceGridCard.tsx:60 | With distinct option ids, at most one option is highlighted, and it is the one voted for. |
| TraditionalCard.TotalVotes | src/components/voting-cards/TraditionalVotingCard.tsx:35-60 | The total bounds every option's tally and is 0 exactly for the default all-zero results. |
| TraditionalCard.Percentage | src/components/voting-cards/TraditionalVotingCard.tsx:131 | Each share lies in 0..100 and is 0 before any vote. |
| TraditionalCard.PercentagesSumTo100 | src/components/voting-cards/TraditionalVotingCard.tsx:60-131 | With votes, the three shares add up to 100. |
| TraditionalCard.CommentBox.constructor | src/components/voting-cards/TraditionalVotingCard.tsx:43 | The box starts with an empty draft. |
| TraditionalCard.CommentBox.Change | src/components/voting-cards/TraditionalVotingCard.tsx:243-244 | The draft becomes whatever was typed; this box has no word limit. |
| TraditionalCard.CommentBox.HandleAddComment | src/components/voting-cards/TraditionalVotingCard.tsx:53-58 | The trimmed draft is posted, and has at least one word, exactly when it is not blank and a handler exists. The draft is cleared exactly when something was posted. |
| YesNoCard.TotalVotes | src/components/voting-cards/YesNoCard.tsx:21-34 | The total bounds both tallies and is 0 exactly for the default results. |
| YesNoCard.YesPercentage | src/components/voting-cards/YesNoCard.tsx:35 | The yes share lies in 0..100 and is 0 before any vote. |
| YesNoCard.NoPercentage | src/components/voting-cards/YesNoCard.tsx:36 | The no share lies in 0..100 and is 0 before any vote. |
| YesNoCard.PercentagesSumTo100 | src/components/voting-cards/YesNoCard.tsx:34-36 | With votes, the yes and no shares add up to 100. |
| FaceOffCard.TotalVotes | src/components/voting-cards/FaceOffCard.tsx:34 | The total bounds both candidates' tallies and is 0 exactly when both are. |
| FaceOffCard.Percentage | src/components/voting-cards/FaceOffCard.tsx:34-36 | Each candidate's share lies in 0..100 and is 50 before any vote. |
| FaceOffCard.PercentagesSumTo100 | src/components/voting-cards/FaceOffCard.tsx:34-36 | The two shares always add up to 100, with or without votes. |
| FaceOffCard.Decimal | src/components/voting-cards/FaceOffCard.tsx:58 | A number's text is a non-empty run of digits with no leading zero (only 0 itself starts with '0'): one digit below 10, two below 100; `DecimalRoundTrip` fixes its value. |
| FaceOffCard.DecimalRoundTrip | src/components/voting-cards/FaceOffCard.tsx:58 | A number's text reads back as the number. |
| FaceOffCard.PadStart | src/components/voting-cards/FaceOffCard.tsx:58 | Padding gives the larger of the width and the length, ends with the original text, and fills the front with the pad character. |
| FaceOffCard.Clock | src/components/voting-cards/FaceOffCard.tsx:58 | The countdown text is at least one digit, a colon, and two characters. |
| FaceOffCard.Countdown | src/components/voting-cards/FaceOffCard.tsx:55-58 | The countdown block shows exactly when a positive time left is given, and it reads back as that time. A time left of 0 renders the bare text "0", and nothing renders otherwise. |
| FaceOffCard.TwoDigitsRoundTrip | src/components/voting-cards/FaceOffCard.tsx:58 | Seconds below 100, padded to two digits, are two digits that read back as the seconds. |
| FaceOffCard.ClockRoundTrip | src/components/voting-cards/FaceOffCard.tsx:58 | Before the colon the countdown reads `t div 60`, and after it two digits read `t mod 60`. So it reads back as the time left, under a parser that refuses 60 or more seconds. |
| MultiChoiceCard.Stars | src/components/voting-cards/MultiChoiceGridCard.tsx:91 | A non-negative share draws between 0 and 5 stars. |
| MultiChoiceCard.FloorOfRatio | src/components/voting-cards/MultiChoiceGridCard.tsx:91 | The floor of an exact ratio of naturals is their integer quotient. |
| MultiChoiceCard.TenthOfPercentage | src/components/voting-cards/MultiChoiceGridCard.tsx:59-91 | A tenth of a share is 10 × votes over the total. |
| MultiChoiceCard.StarsFromTallies | src/components/voting-cards/MultiChoiceGridCard.tsx:38-91 | An option's stars are min(5, 10 × votes div total), and 0 before any vote. |
| QuickPollCard.ShowsRipple | src/components/voting-cards/QuickPollCard.tsx:59-92 | The ripple marks only the user's choice, and never once results are shown. |
| QuickPollCard.Percentages | src/components/voting-cards/QuickPollCard.tsx:37-58 | Once any vote exists the shares add up to 100; before that every share is 0. |
| VoteGuard.Disabled | src/components/voting-cards/YesNoCard.tsx:65 | The buttons are enabled exactly when no vote is in flight and results are hidden. |
| VoteGuard.VoteButtons.constructor | src/components/voting-cards/QuickPollCard.tsx:28 | A card starts with no vote in flight. |
| VoteGuard.VoteButtons.Click | src/components/voting-cards/MultiChoiceGridCard.tsx:31-33 | A click starts a vote exactly when the buttons are enabled; it then records the option in flight. A refused click changes nothing. |
| VoteGuard.VoteButtons.Settle | src/components/voting-cards/FaceOffCard.tsx:29-31 | After the delay `onVote` receives exactly the option clicked, and the buttons' in-flight state clears. |
| Gallery.FaceOffCountdownShown | src/components/VotingCardsGallery.tsx:73 | The hour the gallery passes to the face-off card is shown as "60:00". |
| Gallery.SharesShownSumTo100 | src/components/VotingCardsGallery.tsx:49-137 | For the tallies the gallery passes down, each card's shares add up to 100. |
| Gallery.MultiChoiceStarsShown | src/components/VotingCardsGallery.tsx:82-107 | Option 2's 123 of the 324 multi-choice votes draw three stars. |
| Gallery.VotingGallery.IsRevealed | src/components/VotingCardsGallery.tsx:50 | A card's `showResults` is true only for a card with a recorded choice; an absent entry reads as false. |
| Gallery.VotingGallery.UserVote | src/components/VotingCardsGallery.tsx:51 | A card's `userVote` is its recorded choice when there is one, and absent otherwise. |
| Gallery.VotingGallery.constructor | src/components/VotingCardsGallery.tsx:14-15 | No card starts voted or revealed. |
| Gallery.VotingGallery.HandleVote | src/components/VotingCardsGallery.tsx:17-23 | The card's choice is stored, overwriting any earlier one, and one reveal is scheduled. Other cards' choices and every card's reveal state are unchanged. |
| Gallery.VotingGallery.FireRevealTimer | src/components/VotingCardsGallery.tsx:20-22 | The oldest scheduled card is revealed. A revealed card stays revealed, other cards and all choices are unchanged, and only voted cards are ever revealed. |
| Session.CastVote | src/components/VotingCardsGallery.tsx:17-23 | A click on an idle card, with no reveal firing during its delay, is accepted exactly when the gallery has not revealed that card. An accepted vote replaces the card's choice and schedules its reveal. |
| Session.ChoiceChangesAfterReveal | src/components/voting-cards/YesNoCard.tsx:27-32 | On a 500 ms card, a second click before the reveal is accepted, but its vote arrives after the reveal. The results first show the first choice, then the recorded choice of the revealed card becomes the second. |
| Session.SecondVoteBeforeReveal | src/components/voting-cards/QuickPollCard.tsx:30-35 | On the 300 ms quick poll, a second choice can reach the gallery before the first reveal; it is the one recorded and shown. |
| Session.NoVoteAfterReveal | src/components/voting-cards/YesNoCard.tsx:65 | After the reveal a click is ignored and the first choice stays recorded. |
| Session.DoubleClickInFlight | src/components/voting-cards/YesNoCard.tsx:27-32 | A second click while a vote is in flight is ignored; only the first choice reaches `onVote`. |
| Session.VotesOnTwoCards | src/components/VotingCardsGallery.tsx:18 | Each card keeps its own choice, and a card nobody voted on has none. |

## Left out

- Rendering, styling, icons, animation classes and the generic button component: these are presentation only.
- Each card's comment toggle (`showComments`), labels, emoji and Nepali text: none of them affects state the model tracks.
- The admin dashboard and the other pages and tabs of the application are not part of this model.
- Timer durations: time is not modelled as a quantity. Each timer firing is an explicit step, and the `Session` scenarios take those steps in the order the 300 ms and 500 ms delays produce; the model does not derive that order from the durations. The source cancels none of its timers.
- Unmounting: switching to the admin or profile tab (src/App.tsx:55-73) unmounts the gallery and the comment form, and coming back remounts them with empty vote and reveal maps and an empty draft, so a card can be voted on again. The model has no tab state and keeps one gallery and one form for the whole session.
- Text.Split: the count of non-empty pieces (`SplitFromCount`, `WordCountIsWordStarts`), their freedom from whitespace (`WordsAreWords`) and their joined content (`SplitKeepsText`) are stated, but not that each piece is a maximal non-whitespace run, because the form reads only `words.length`.
- `toFixed` display rounding: percentages are exact reals.
- The locale date format of comment timestamps: timestamps are plain integers.
- `Date.now()`, `Math.random()` and `new Date()`: the new comment's id, author label and time are parameters of `App.AppState.HandleAddComment`, and "now" is a parameter of `App.AppState.constructor`.
- The form's `preventDefault`: it is an event-system side effect.
- `FaceOffCard.Countdown`: `timeLeft` is modelled as an integer of seconds. A fractional or non-numeric `timeLeft` (where the source could render `NaN`) is not modelled.
- Vote tallies and comment vote counters are TypeScript numbers in the source and natural numbers in the model. Negative, fractional and non-finite counts, and floating-point rounding of the sums, are not modelled.
- `Tally.Percentage`: the bounds to 0..100 are stated only when the option's tally is at most the total, which holds for every share a card shows.
- `Gallery.Vote`: the gallery stores `any`. The model admits only the four shapes the cards pass up: a reaction, a candidate, an answer and an option id.
