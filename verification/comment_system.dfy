/**
 * The comment form of a post: its per-category word limit, the draft that
 * the textarea holds, the live word counter, the warning and the submit gate.
 */
module CommentSystem {
  import opened Wrappers
  import opened Text

  datatype PostType = Daily | Politician | Community | Sports | Entertainment

  /** The word limit of a comment: daily posts are short-form. */
  function MaxWords(postType: PostType): (limit: nat)
    ensures postType == Daily <==> limit == 20
    ensures postType != Daily <==> limit == 100
  {
    if postType == Daily then 20 else 100
  }

  /** The count shown under the textarea: words left before the limit, negative once over it. */
  function WordsRemaining(maxWords: nat, wordCount: nat): (remaining: int)
    ensures remaining < 0 <==> wordCount > maxWords
    ensures remaining + wordCount == maxWords
  {
    maxWords - wordCount
  }

  /** The warning (and red counter) appears once fewer than five words remain. */
  function ShowsWarning(maxWords: nat, wordCount: nat): (warn: bool)
    ensures warn <==> WordsRemaining(maxWords, wordCount) < 5
    ensures wordCount > maxWords ==> warn
  {
    wordCount > maxWords - 5
  }

  /** The submit button's `disabled` flag; `handleSubmit` applies the same test. */
  function SubmitBlocked(draft: string, wordCount: nat, maxWords: nat): (blocked: bool)
    ensures !blocked <==> WordCount(draft) >= 1 && wordCount <= maxWords
  {
    WordCountZeroIffBlank(draft);
    Trim(draft) == [] || wordCount > maxWords
  }

  /**
   * The form's state. `newComment` is the stored draft and `wordCount` the
   * count of the text last typed, which a rejected edit leaves above the
   * limit while the draft keeps its previous value.
   */
  class CommentForm {
    const postType: PostType
    const maxWords: nat
    var newComment: string
    var wordCount: nat

    /**
     * The stored draft never exceeds the word limit, and a count within the
     * limit is the count of the stored draft (only an edit that was refused
     * leaves the count out of step, and then it is above the limit).
     */
    ghost predicate Valid()
      reads this
    {
      && maxWords == MaxWords(postType)
      && WordCount(newComment) <= maxWords
      && (wordCount <= maxWords ==> wordCount == WordCount(newComment))
    }

    constructor (postType: PostType)
      ensures Valid()
      ensures this.postType == postType && newComment == [] && wordCount == 0
    {
      this.postType := postType;
      maxWords := MaxWords(postType);
      newComment := [];
      wordCount := 0;
      WordCountZeroIffBlank([]);
    }

    /** `handleCommentChange`: count the words of `text`, keep it only when within the limit. */
    method HandleCommentChange(text: string)
      requires Valid()
      modifies this
      ensures Valid()
      ensures (newComment, wordCount) == Edit(old(newComment), maxWords, text)
    {
      var words := Words(text);
      wordCount := |words|;
      if |words| <= maxWords {
        newComment := text;
      }
    }

    /** The form after a submission: empty draft, count 0. */
    method Reset()
      requires maxWords == MaxWords(postType)
      modifies this
      ensures Valid() && newComment == [] && wordCount == 0
    {
      newComment := [];
      wordCount := 0;
    }

    /**
     * `handleSubmit`: forward the trimmed draft and reset the form, or do
     * nothing when the draft is blank or the last count is over the limit.
     */
    method HandleSubmit() returns (submitted: Option<string>)
      requires Valid()
      modifies this
      ensures Valid()
      ensures submitted.Some? <==> !old(SubmitBlocked(newComment, wordCount, maxWords))
      ensures submitted.Some? ==>
        && submitted.value == Trim(old(newComment))
        && WordCount(submitted.value) == old(wordCount)
        && 1 <= WordCount(submitted.value) <= maxWords
        && Trim(submitted.value) == submitted.value
        && newComment == [] && wordCount == 0
      ensures submitted.None? ==> newComment == old(newComment) && wordCount == old(wordCount)
    {
      var draft := newComment;
      var trimmed := Trim(draft);
      if trimmed != [] && wordCount <= maxWords {
        SubmittedDraft(draft, wordCount, maxWords);
        submitted := Some(trimmed);
        Reset();
      } else {
        submitted := None;
      }
    }
  }

  /**
   * A draft that passes the submit gate in a valid form: its trimmed text is
   * already trimmed and has the word count that was checked, between 1 and the limit.
   */
  lemma SubmittedDraft(draft: string, count: nat, maxWords: nat)
    requires count <= maxWords ==> count == WordCount(draft)
    requires Trim(draft) != [] && count <= maxWords
    ensures WordCount(Trim(draft)) == count && 1 <= count <= maxWords
    ensures Trim(Trim(draft)) == Trim(draft)
  {
    WordCountOfTrim(draft);
    WordCountZeroIffBlank(draft);
    TrimIdempotent(draft);
  }

  /** One keystroke's worth of `handleCommentChange` on the pair (draft, count). */
  function Edit(draft: string, maxWords: nat, text: string): (next: (string, nat))
    ensures next.1 == WordCount(text)
    ensures WordCount(text) <= maxWords ==> next.0 == text
    ensures WordCount(text) > maxWords ==> next.0 == draft
    ensures WordCount(draft) <= maxWords ==> WordCount(next.0) <= maxWords
  {
    if WordCount(text) <= maxWords then (text, WordCount(text)) else (draft, WordCount(text))
  }

  /** The draft after a whole sequence of edits typed into the form. */
  function EditAll(draft: string, maxWords: nat, edits: seq<string>): string
    decreases |edits|
  {
    if edits == [] then draft else EditAll(Edit(draft, maxWords, edits[0]).0, maxWords, edits[1..])
  }

  /**
   * Whatever is typed, starting from the empty draft the stored draft never
   * exceeds the limit, and it is always the empty draft or one of the texts typed.
   */
  lemma {:induction false} EditsKeepDraftWithinLimit(draft: string, maxWords: nat, edits: seq<string>)
    requires WordCount(draft) <= maxWords
    ensures WordCount(EditAll(draft, maxWords, edits)) <= maxWords
    ensures EditAll(draft, maxWords, edits) == draft || EditAll(draft, maxWords, edits) in edits
    decreases |edits|
  {
    if edits != [] {
      var next := Edit(draft, maxWords, edits[0]).0;
      EditsKeepDraftWithinLimit(next, maxWords, edits[1..]);
    }
  }
}
