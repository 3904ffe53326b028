/**
 * The application's own state: the comment thread (newest first) and the
 * display language. Adding prepends a fresh comment; reacting maps over the
 * thread and, on each comment with the given id, overwrites the reaction and
 * adds one to the engagement counter.
 */
module App {
  import opened Wrappers
  import opened VotingTypes

  datatype Language = En | Ne

  /** `handleLanguageToggle`'s update: English and Nepali swap. */
  function Toggle(language: Language): (next: Language)
    ensures next != language
  {
    if language == En then Ne else En
  }

  lemma ToggleTwice(language: Language)
    ensures Toggle(Toggle(language)) == language
  {
  }

  /**
   * `handleAddComment`'s list update. The id (`Date.now()`), the generated
   * author label and the timestamp (`new Date()`) come from outside.
   */
  function AddComment(comments: seq<Comment>, id: string, text: string, author: string, timestamp: int): (r: seq<Comment>)
    ensures |r| == |comments| + 1 && r[1..] == comments
    ensures r[0].id == id && r[0].text == text && r[0].author == author && r[0].timestamp == timestamp
    ensures r[0].votes == 0 && r[0].reaction == None
  {
    [Comment(id, text, author, timestamp, 0, None)] + comments
  }

  /** A comment after one reaction: the reaction is replaced and the counter goes up by one. */
  function Reacted(c: Comment, reaction: Reaction): (r: Comment)
    ensures r.reaction == Some(reaction) && r.votes == c.votes + 1
    ensures r.id == c.id && r.text == c.text && r.author == c.author && r.timestamp == c.timestamp
  {
    c.(reaction := Some(reaction), votes := c.votes + 1)
  }

  /** `handleReactToComment`'s list update, the `map` over the thread. */
  function React(comments: seq<Comment>, id: string, reaction: Reaction): (r: seq<Comment>)
    ensures |r| == |comments|
  {
    if comments == [] then []
    else
      var head := if comments[0].id == id then Reacted(comments[0], reaction) else comments[0];
      [head] + React(comments[1..], id, reaction)
  }

  /**
   * Reacting changes exactly the comments whose id matches: each of them gets
   * the new reaction and one more vote and keeps everything else; every other
   * comment, and the order, is left as it was.
   */
  lemma {:induction false} ReactEffect(comments: seq<Comment>, id: string, reaction: Reaction)
    ensures |React(comments, id, reaction)| == |comments|
    ensures forall i :: 0 <= i < |comments| && comments[i].id == id ==>
      var c := React(comments, id, reaction)[i];
      && c.reaction == Some(reaction) && c.votes == comments[i].votes + 1
      && c.id == comments[i].id && c.text == comments[i].text
      && c.author == comments[i].author && c.timestamp == comments[i].timestamp
    ensures forall i :: 0 <= i < |comments| && comments[i].id != id ==>
      React(comments, id, reaction)[i] == comments[i]
  {
    if comments != [] {
      ReactEffect(comments[1..], id, reaction);
      var r := React(comments, id, reaction);
      forall i | 1 <= i < |comments|
        ensures r[i] == React(comments[1..], id, reaction)[i - 1]
      {
      }
    }
  }

  /** Reacting with an id that no comment has leaves the thread unchanged. */
  lemma {:induction false} ReactUnknownId(comments: seq<Comment>, id: string, reaction: Reaction)
    requires forall i :: 0 <= i < |comments| ==> comments[i].id != id
    ensures React(comments, id, reaction) == comments
  {
    if comments != [] {
      ReactUnknownId(comments[1..], id, reaction);
    }
  }

  /** The thread after a series of reactions to the comment `id`, in the order given. */
  function ReactAll(comments: seq<Comment>, id: string, reactions: seq<Reaction>): (r: seq<Comment>)
    decreases |reactions|
  {
    if reactions == [] then comments
    else ReactAll(React(comments, id, reactions[0]), id, reactions[1..])
  }

  /**
   * Repeated reactions to one comment: the last reaction wins, and the counter
   * grows by the number of reactions (so it never decreases); other comments
   * are untouched.
   */
  lemma {:induction false} ReactRepeatedly(comments: seq<Comment>, id: string, reactions: seq<Reaction>, i: nat)
    requires i < |comments|
    ensures |ReactAll(comments, id, reactions)| == |comments|
    ensures comments[i].id == id && reactions != [] ==>
      && ReactAll(comments, id, reactions)[i].reaction == Some(reactions[|reactions| - 1])
      && ReactAll(comments, id, reactions)[i].votes == comments[i].votes + |reactions|
    ensures comments[i].id != id ==> ReactAll(comments, id, reactions)[i] == comments[i]
    decreases |reactions|
  {
    if reactions != [] {
      var next := React(comments, id, reactions[0]);
      ReactEffect(comments, id, reactions[0]);
      ReactRepeatedly(next, id, reactions[1..], i);
    }
  }

  /** A reaction button of a comment is highlighted when it is the comment's current reaction. */
  predicate Highlighted(c: Comment, reaction: Reaction)
    ensures Highlighted(c, reaction) ==> c.reaction.Some? && c.reaction.value == reaction
  {
    c.reaction == Some(reaction)
  }

  /**
   * After reacting to a comment, exactly the chosen reaction button of that
   * comment is highlighted, whatever was highlighted before.
   */
  lemma ReactHighlightsChosen(comments: seq<Comment>, id: string, reaction: Reaction, i: nat, other: Reaction)
    requires i < |comments| && comments[i].id == id
    ensures i < |React(comments, id, reaction)|
    ensures Highlighted(React(comments, id, reaction)[i], other) <==> other == reaction
  {
    ReactEffect(comments, id, reaction);
  }

  /** Sum of the engagement counters of the thread. */
  function TotalVotes(comments: seq<Comment>): nat {
    if comments == [] then 0 else comments[0].votes + TotalVotes(comments[1..])
  }

  function CountWithId(comments: seq<Comment>, id: string): nat {
    if comments == [] then 0
    else (if comments[0].id == id then 1 else 0) + CountWithId(comments[1..], id)
  }

  /** One reaction adds exactly one vote per comment carrying the id (one, when ids are unique). */
  lemma {:induction false} ReactTotalVotes(comments: seq<Comment>, id: string, reaction: Reaction)
    ensures TotalVotes(React(comments, id, reaction)) == TotalVotes(comments) + CountWithId(comments, id)
  {
    if comments != [] {
      ReactTotalVotes(comments[1..], id, reaction);
    }
  }

  /** Comments are newest first: adding A and then B puts B before A, before the earlier thread. */
  lemma AddTwice(comments: seq<Comment>, a: Comment, b: Comment)
    ensures AddComment(AddComment(comments, a.id, a.text, a.author, a.timestamp), b.id, b.text, b.author, b.timestamp)
      == [b.(votes := 0, reaction := None), a.(votes := 0, reaction := None)] + comments
  {
  }

  /** The state `App` keeps: the display language and the comment thread. */
  class AppState {
    var language: Language
    var comments: seq<Comment>

    /** The initial state: English, and the two sample comments; `now` stands for `new Date()`. */
    constructor (now: int)
      ensures language == En
      ensures comments == [
        Comment("1", "This is a great initiative for Nepal!", "Anonymous_User_1", now, 12, Some(Gajjab)),
        Comment("2", "यो राम्रो योजना हो तर कार्यान्वयन महत्वपूर्ण छ।", "Anonymous_User_2", now - 3600000, 8, Some(YestoNiHunxa))]
    {
      language := En;
      comments := [
        Comment("1", "This is a great initiative for Nepal!", "Anonymous_User_1", now, 12, Some(Gajjab)),
        Comment("2", "यो राम्रो योजना हो तर कार्यान्वयन महत्वपूर्ण छ।", "Anonymous_User_2", now - 3600000, 8, Some(YestoNiHunxa))];
    }

    method HandleLanguageToggle()
      modifies this
      ensures language == Toggle(old(language)) && comments == old(comments)
    {
      language := Toggle(language);
    }

    /** `handleAddComment`, with `Date.now()`, `Math.random()` and `new Date()` supplied by the caller. */
    method HandleAddComment(text: string, id: string, author: string, timestamp: int)
      modifies this
      ensures comments == AddComment(old(comments), id, text, author, timestamp)
      ensures language == old(language)
    {
      var created := Comment(id, text, author, timestamp, 0, None);
      comments := [created] + comments;
    }

    method HandleReactToComment(id: string, reaction: Reaction)
      modifies this
      ensures comments == React(old(comments), id, reaction)
      ensures language == old(language)
    {
      comments := React(comments, id, reaction);
    }
  }
}
