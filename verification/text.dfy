/**
 * Word counting as the comment form does it:
 * `text.trim().split(/\s+/).filter(word => word.length > 0).length`.
 *
 * `Trim`, `Split` and `NonEmpty` follow the three library calls one by one;
 * `WordStarts` is an independent definition (the number of positions where
 * a word begins) and `WordCountIsWordStarts` proves the two agree.
 */
module Text {

  /**
   * ECMAScript's WhiteSpace and LineTerminator characters: the set that both
   * `String.prototype.trim` and the regular-expression class `\s` use.
   */
  predicate IsSpace(c: char) {
    || c == '\t' || c == '\n' || c == '\U{B}' || c == '\U{C}' || c == '\r'
    || c == ' ' || c == '\U{A0}' || c == '\U{1680}'
    || ('\U{2000}' <= c <= '\U{200A}')
    || c == '\U{2028}' || c == '\U{2029}' || c == '\U{202F}' || c == '\U{205F}'
    || c == '\U{3000}' || c == '\U{FEFF}'
  }

  ghost predicate AllSpace(s: string) {
    forall i :: 0 <= i < |s| ==> IsSpace(s[i])
  }

  /** `s` without its leading run of whitespace. */
  function DropSpaces(s: string): (r: string)
    ensures |r| <= |s| && r == s[|s| - |r|..]
    ensures r == [] || !IsSpace(r[0])
    ensures forall i :: 0 <= i < |s| - |r| ==> IsSpace(s[i])
  {
    if s != [] && IsSpace(s[0]) then DropSpaces(s[1..]) else s
  }

  /** `s` without its trailing run of whitespace. */
  function DropTrailingSpaces(s: string): (r: string)
    ensures |r| <= |s| && r == s[..|r|]
    ensures r == [] || !IsSpace(r[|r| - 1])
    ensures forall i :: |r| <= i < |s| ==> IsSpace(s[i])
  {
    if s != [] && IsSpace(s[|s| - 1]) then DropTrailingSpaces(s[..|s| - 1]) else s
  }

  /**
   * `String.prototype.trim`; never longer than `s`. `TrimIdempotent`
   * and `TrimEmptyIffAllSpace` state what it removes.
   */
  function Trim(s: string): (r: string)
    ensures |r| <= |s|
  {
    DropTrailingSpaces(DropSpaces(s))
  }

  /**
   * `s.split(/\s+/)`: the pieces between maximal runs of whitespace. `cur`
   * is the piece being built; a leading or trailing run yields an empty piece.
   */
  function SplitFrom(s: string, cur: string): (pieces: seq<string>)
    ensures |pieces| >= 1
    decreases |s|
  {
    if s == [] then [cur]
    else if IsSpace(s[0]) then [cur] + SplitFrom(DropSpaces(s), [])
    else SplitFrom(s[1..], cur + [s[0]])
  }

  /**
   * `s.split(/\s+/)`: always at least one piece, and the empty text gives
   * one empty piece (`WordsAreWords` shows no piece contains whitespace).
   */
  function Split(s: string): (pieces: seq<string>)
    ensures |pieces| >= 1
    ensures s == [] ==> pieces == [[]]
  {
    SplitFrom(s, [])
  }

  /** `.filter(word => word.length > 0)`. */
  function NonEmpty(pieces: seq<string>): (r: seq<string>)
    ensures |r| <= |pieces|
    ensures forall w :: w in r ==> w != [] && w in pieces
    ensures forall w :: w in pieces && w != [] ==> w in r
  {
    if pieces == [] then []
    else (if pieces[0] == [] then [] else [pieces[0]]) + NonEmpty(pieces[1..])
  }

  /** The filter keeps every occurrence of every non-empty piece and drops each empty one. */
  lemma {:induction false} NonEmptyKeepsEvery(pieces: seq<string>)
    ensures multiset(NonEmpty(pieces)) == multiset(pieces)[[] := 0]
  {
    if pieces != [] {
      assert pieces == [pieces[0]] + pieces[1..];
      NonEmptyKeepsEvery(pieces[1..]);
    }
  }

  /** The words of a comment draft. */
  function Words(text: string): seq<string> {
    NonEmpty(Split(Trim(text)))
  }

  /**
   * `handleCommentChange`'s `words.length`: none for the empty text
   * (`WordCountIsWordStarts` gives its exact value for every text).
   */
  function WordCount(text: string): (count: nat)
    ensures text == [] ==> count == 0
  {
    |Words(text)|
  }

  /**
   * Reference definition: the number of positions of `s` holding a
   * non-whitespace character that follows whitespace (or, when `afterSpace`,
   * the start of `s`).
   */
  function Starts(s: string, afterSpace: bool): nat {
    if s == [] then 0
    else (if afterSpace && !IsSpace(s[0]) then 1 else 0) + Starts(s[1..], IsSpace(s[0]))
  }

  function WordStarts(s: string): nat {
    Starts(s, true)
  }

  lemma {:induction false} NonEmptyAppend(a: seq<string>, b: seq<string>)
    ensures NonEmpty(a + b) == NonEmpty(a) + NonEmpty(b)
  {
    if a == [] {
      assert a + b == b;
    } else {
      assert (a + b)[1..] == a[1..] + b;
      NonEmptyAppend(a[1..], b);
    }
  }

  /** A leading run of whitespace begins no word. */
  lemma {:induction false} StartsDropSpaces(s: string)
    ensures Starts(DropSpaces(s), true) == Starts(s, true)
  {
    if s != [] && IsSpace(s[0]) {
      StartsDropSpaces(s[1..]);
    }
  }

  /** Appending one whitespace character begins no word. */
  lemma {:induction false} StartsAppendSpace(s: string, c: char, afterSpace: bool)
    requires IsSpace(c)
    ensures Starts(s + [c], afterSpace) == Starts(s, afterSpace)
  {
    if s == [] {
      assert Starts([c], afterSpace) == Starts([], true);
    } else {
      assert (s + [c])[1..] == s[1..] + [c];
      StartsAppendSpace(s[1..], c, IsSpace(s[0]));
    }
  }

  /** A trailing run of whitespace begins no word. */
  lemma {:induction false} StartsDropTrailingSpaces(s: string, afterSpace: bool)
    ensures Starts(DropTrailingSpaces(s), afterSpace) == Starts(s, afterSpace)
  {
    if s != [] && IsSpace(s[|s| - 1]) {
      var init := s[..|s| - 1];
      assert s == init + [s[|s| - 1]];
      StartsAppendSpace(init, s[|s| - 1], afterSpace);
      StartsDropTrailingSpaces(init, afterSpace);
    }
  }

  /**
   * Splitting the rest `s` of a text while piece `cur` is being built yields
   * one non-empty piece per word start of `s`, plus `cur` itself when it is
   * not empty.
   */
  lemma {:induction false} SplitFromCount(s: string, cur: string)
    ensures |NonEmpty(SplitFrom(s, cur))| == Starts(s, cur == []) + (if cur == [] then 0 else 1)
    decreases |s|
  {
    if s == [] {
      assert NonEmpty([cur]) == (if cur == [] then [] else [cur]) + NonEmpty([]);
    } else if IsSpace(s[0]) {
      var rest := DropSpaces(s);
      NonEmptyAppend([cur], SplitFrom(rest, []));
      assert NonEmpty([cur]) == (if cur == [] then [] else [cur]) + NonEmpty([]);
      SplitFromCount(rest, []);
      assert rest == DropSpaces(s[1..]);
      StartsDropSpaces(s[1..]);
    } else {
      SplitFromCount(s[1..], cur + [s[0]]);
    }
  }

  /** The count of the split-and-filter pipeline equals the reference count of word starts. */
  lemma WordCountIsWordStarts(text: string)
    ensures WordCount(text) == WordStarts(text)
  {
    var d := DropSpaces(text);
    SplitFromCount(Trim(text), []);
    StartsDropTrailingSpaces(d, true);
    StartsDropSpaces(text);
  }

  /** No word begins in `s` exactly when `s` is all whitespace. */
  lemma {:induction false} StartsZeroIffAllSpace(s: string)
    ensures Starts(s, true) == 0 <==> AllSpace(s)
  {
    if s != [] {
      StartsZeroIffAllSpace(s[1..]);
      if IsSpace(s[0]) {
        assert AllSpace(s) <==> AllSpace(s[1..]) by {
          if AllSpace(s[1..]) {
            forall i | 0 <= i < |s| ensures IsSpace(s[i]) {
              if i > 0 { assert s[i] == s[1..][i - 1]; }
            }
          }
        }
      }
    }
  }

  /** The empty or all-whitespace text has no words, and every other text has at least one. */
  lemma WordCountZeroIffBlank(text: string)
    ensures WordCount(text) == 0 <==> AllSpace(text)
    ensures WordCount(text) == 0 <==> Trim(text) == []
  {
    WordCountIsWordStarts(text);
    StartsZeroIffAllSpace(text);
    TrimEmptyIffAllSpace(text);
  }

  /** `text.trim()` is falsy exactly when `text` is all whitespace. */
  lemma TrimEmptyIffAllSpace(text: string)
    ensures Trim(text) == [] <==> AllSpace(text)
  {
  }

  /** The trimmed text has no surrounding whitespace, so trimming again changes nothing. */
  lemma TrimIdempotent(text: string)
    ensures Trim(text) == [] || (!IsSpace(Trim(text)[0]) && !IsSpace(Trim(text)[|Trim(text)| - 1]))
    ensures Trim(Trim(text)) == Trim(text)
  {
    var d := DropSpaces(text);
    var t := Trim(text);
    if t != [] {
      assert t[0] == d[0];
      assert DropSpaces(t) == t;
    }
  }

  /**
   * `trim()` keeps one contiguous piece of the text and drops only
   * whitespace before and after it.
   */
  lemma TrimIsSlice(s: string)
    ensures exists i, j :: (
              && 0 <= i <= j <= |s| && Trim(s) == s[i..j]
              && (forall k :: 0 <= k < i ==> IsSpace(s[k]))
              && (forall k :: j <= k < |s| ==> IsSpace(s[k])))
  {
    var i := |s| - |DropSpaces(s)|;
    var j := i + |Trim(s)|;
    assert Trim(s) == s[i..j];
  }

  /** Trimming never changes the word count: what is submitted has the count that was checked. */
  lemma WordCountOfTrim(text: string)
    ensures WordCount(Trim(text)) == WordCount(text)
  {
    TrimIdempotent(text);
  }

  /** Every word is non-empty and contains no whitespace. */
  lemma {:induction false} SplitFromPiecesHaveNoSpace(s: string, cur: string)
    requires forall i :: 0 <= i < |cur| ==> !IsSpace(cur[i])
    ensures forall w :: w in SplitFrom(s, cur) ==> forall i :: 0 <= i < |w| ==> !IsSpace(w[i])
    decreases |s|
  {
    if s == [] {
    } else if IsSpace(s[0]) {
      SplitFromPiecesHaveNoSpace(DropSpaces(s), []);
    } else {
      SplitFromPiecesHaveNoSpace(s[1..], cur + [s[0]]);
    }
  }

  /** Every word the counter counts is non-empty and free of whitespace. */
  lemma WordsAreWords(text: string)
    ensures forall w :: w in Words(text) ==> w != [] && forall i :: 0 <= i < |w| ==> !IsSpace(w[i])
  {
    SplitFromPiecesHaveNoSpace(Trim(text), []);
  }

  /** Joins the pieces with nothing between them. */
  function Concat(pieces: seq<string>): (r: string)
    ensures pieces == [] ==> r == []
  {
    if pieces == [] then [] else pieces[0] + Concat(pieces[1..])
  }

  /** Reference definition: the characters of `s` that are not whitespace, in order. */
  function NonSpace(s: string): (r: string)
    ensures |r| <= |s|
  {
    if s == [] then []
    else (if IsSpace(s[0]) then [] else [s[0]]) + NonSpace(s[1..])
  }

  /** A leading run of whitespace holds no non-whitespace character. */
  lemma {:induction false} NonSpaceDropSpaces(s: string)
    ensures NonSpace(DropSpaces(s)) == NonSpace(s)
  {
    if s != [] && IsSpace(s[0]) {
      NonSpaceDropSpaces(s[1..]);
    }
  }

  /**
   * The pieces built from the rest `s` of a text, after `cur`, hold exactly
   * the non-whitespace characters of `s`, in order, after `cur`.
   */
  lemma {:induction false} SplitFromConcat(s: string, cur: string)
    ensures Concat(SplitFrom(s, cur)) == cur + NonSpace(s)
    decreases |s|
  {
    if s == [] {
      assert Concat([cur]) == cur + Concat([]);
    } else if IsSpace(s[0]) {
      var rest := DropSpaces(s);
      var pieces := [cur] + SplitFrom(rest, []);
      assert pieces[1..] == SplitFrom(rest, []);
      SplitFromConcat(rest, []);
      NonSpaceDropSpaces(s);
      assert NonSpace(s) == NonSpace(s[1..]);
      assert rest == DropSpaces(s[1..]);
      NonSpaceDropSpaces(s[1..]);
    } else {
      SplitFromConcat(s[1..], cur + [s[0]]);
      assert cur + [s[0]] + NonSpace(s[1..]) == cur + NonSpace(s);
    }
  }

  /**
   * `s.split(/\s+/)` loses and reorders nothing but whitespace: its pieces,
   * joined, are the non-whitespace characters of `s` in order.
   */
  lemma SplitKeepsText(s: string)
    ensures Concat(Split(s)) == NonSpace(s)
  {
    SplitFromConcat(s, []);
  }
}
