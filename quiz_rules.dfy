/**
 * The pure rules of the quiz screen (src/App.js): which fetched questions a
 * genre keeps, when an answer is correct, what the teacher replies, how the
 * index wraps, and how the answer buffer is edited.
 */
module QuizRules {
  import opened Wrappers
  import opened Text
  import opened Sequences
  import FlaskBackend

  /** The screen works on the records the Flask back end serves. */
  type Question = FlaskBackend.Question

  /** `q.question && q.category && q.category.includes(genre)`: both strings non-empty, genre a substring. */
  predicate MatchesGenre(q: Question, genre: string)
    ensures MatchesGenre(q, genre) <==>
              q.question != "" && q.category != ""
              && exists i :: 0 <= i <= |q.category| && genre <= q.category[i..]
  {
    IncludesIff(q.category, genre);
    q.question != "" && q.category != "" && Includes(q.category, genre)
  }

  /** `data.filter(...)` on the fetched list. */
  function GenreFilter(catalog: seq<Question>, genre: string): (r: seq<Question>)
    ensures forall q :: q in r <==> q in catalog && MatchesGenre(q, genre)
    ensures IsSubsequence(r, catalog)
    decreases |catalog|
  {
    if catalog == [] then []
    else
      var rest := GenreFilter(catalog[1..], genre);
      assert forall q :: q in catalog <==> q == catalog[0] || q in catalog[1..];
      if MatchesGenre(catalog[0], genre) then [catalog[0]] + rest else rest
  }

  /** Filtering keeps the order: the result for `a + b` is the result for `a`, then the result for `b`. */
  lemma {:induction false} GenreFilterAppend(a: seq<Question>, b: seq<Question>, genre: string)
    ensures GenreFilter(a + b, genre) == GenreFilter(a, genre) + GenreFilter(b, genre)
    decreases |a|
  {
    if a == [] {
      assert a + b == b;
    } else {
      assert (a + b)[0] == a[0] && (a + b)[1..] == a[1..] + b;
      GenreFilterAppend(a[1..], b, genre);
    }
  }

  /** One question is kept exactly when it matches; with GenreFilterAppend this fixes the result, duplicates included. */
  lemma GenreFilterOfOne(q: Question, genre: string)
    ensures GenreFilter([q], genre) == if MatchesGenre(q, genre) then [q] else []
  {
    assert [q][1..] == [];
  }

  /**
   * `inputText.trim() === answer.trim()`: an answer is correct exactly when it
   * is the trimmed model answer with whitespace, and only whitespace, around it.
   */
  predicate IsCorrect(input: string, answer: string)
    ensures IsCorrect(input, answer) <==> IsTrimOf(ECMAScript, Trim(ECMAScript, answer), input)
  {
    var expected := Trim(ECMAScript, answer);
    TrimSpec(ECMAScript, input);
    assert IsTrimOf(ECMAScript, expected, input) ==> Trim(ECMAScript, input) == expected by {
      if IsTrimOf(ECMAScript, expected, input) {
        TrimUnique(ECMAScript, expected, input);
      }
    }
    Trim(ECMAScript, input) == expected
  }

  /** `東京` is trimmed already. */
  lemma TrimTokyo()
    ensures Trim(ECMAScript, "東京") == "東京"
  {
    var tokyo := "東京";
    assert TrimAt(ECMAScript, tokyo, tokyo, 0) by {
      assert tokyo[0..2] == tokyo && tokyo[..0] == [] && tokyo[2..] == [];
    }
    TrimUnique(ECMAScript, tokyo, tokyo);
  }

  /** Outer half- and full-width spaces are forgiven. */
  lemma OuterSpacesForgiven()
    ensures IsCorrect(" 東京\U{3000}", "東京")
  {
    var padded, tokyo := " 東京\U{3000}", "東京";
    assert TrimAt(ECMAScript, tokyo, padded, 1) by {
      assert padded[1..3] == tokyo && padded[..1] == " " && padded[3..] == "\U{3000}";
    }
    TrimUnique(ECMAScript, tokyo, padded);
    TrimTokyo();
  }

  /** A space inside the answer is not forgiven. */
  lemma InnerSpaceCounts()
    ensures !IsCorrect("東 京", "東京")
  {
    var spaced := "東 京";
    assert TrimAt(ECMAScript, spaced, spaced, 0) by {
      assert spaced[0..3] == spaced && spaced[..0] == [] && spaced[3..] == [];
    }
    TrimUnique(ECMAScript, spaced, spaced);
    TrimTokyo();
  }

  /** The teacher's reply to a correct answer. */
  const CorrectReply := "正解！"

  /** What the teacher's reply to a wrong answer starts with. */
  const WrongReplyPrefix := "不正解… 正解は「"

  /** The teacher's reply: `正解！`, or `不正解… 正解は「<answer>」` quoting the trimmed model answer. */
  function Verdict(correct: bool, answer: string): (m: string)
    ensures m == CorrectReply <==> correct
  {
    if correct then CorrectReply
    else
      var m := WrongReplyPrefix + answer + "」";
      assert m[0] == '不' != CorrectReply[0];
      m
  }

  /** The answer can be read back out of a wrong reply: it sits between the prefix and the closing bracket. */
  lemma VerdictQuotesAnswer(answer: string)
    ensures var m := Verdict(false, answer);
            && |m| == |WrongReplyPrefix| + |answer| + 1
            && m[..|WrongReplyPrefix|] == WrongReplyPrefix
            && m[|WrongReplyPrefix|..|m| - 1] == answer
            && m[|m| - 1] == '」'
  {
    var m := Verdict(false, answer);
    assert m == WrongReplyPrefix + (answer + "」");
  }

  /** The teacher's reply to `input` when the model answer is `answer`. */
  function Reply(input: string, answer: string): (m: string)
    ensures m == CorrectReply <==> IsCorrect(input, answer)
  {
    Verdict(IsCorrect(input, answer), Trim(ECMAScript, answer))
  }

  /** `(prev + 1) % questions.length`: the next index, wrapping from the last back to the first. */
  function NextIndex(i: nat, n: nat): (r: nat)
    requires n > 0
    ensures r < n
    ensures i + 1 < n ==> r == i + 1
    ensures i + 1 == n ==> r == 0
  {
    (i + 1) % n
  }

  /** The index reached from `i` after `k` calls of NextIndex. */
  function Advance(i: nat, n: nat, k: nat): (r: nat)
    requires n > 0
    decreases k
  {
    if k == 0 then i else Advance(NextIndex(i, n), n, k - 1)
  }

  /** Advancing `a` steps and then `b` steps is advancing `a + b` steps. */
  lemma {:induction false} AdvanceAdds(i: nat, n: nat, a: nat, b: nat)
    requires n > 0
    ensures Advance(Advance(i, n, a), n, b) == Advance(i, n, a + b)
    decreases a
  {
    if a > 0 {
      AdvanceAdds(NextIndex(i, n), n, a - 1, b);
    }
  }

  /** From `i`, `k` steps reach `i + k` as long as that stays inside the list. */
  lemma {:induction false} AdvanceCounts(i: nat, n: nat, k: nat)
    requires i + k < n
    ensures Advance(i, n, k) == i + k
    decreases k
  {
    if k > 0 {
      AdvanceCounts(i + 1, n, k - 1);
    }
  }

  /** Wrapping is a cycle: `n` steps from any valid index come back to it. */
  lemma NextIndexCycles(i: nat, n: nat)
    requires i < n
    ensures Advance(i, n, n) == i
  {
    AdvanceCounts(i, n, n - 1 - i);
    assert Advance(n - 1, n, 1) == 0;
    AdvanceAdds(i, n, n - 1 - i, 1);
    AdvanceCounts(0, n, i);
    AdvanceAdds(i, n, n - i, i);
  }

  /** `s.slice(0, -1)`: everything but the last character; an empty string stays empty. */
  function DropLast(s: string): (r: string)
    ensures s == [] ==> r == []
    ensures s != [] ==> r + [s[|s| - 1]] == s
  {
    if s == [] then [] else s[..|s| - 1]
  }

  /** `(data.text || '').replace(/[\s\u3000]/g, '')`: the OCR text with every whitespace character removed. */
  function CleanOcrText(text: Option<string>): (r: string)
    ensures forall i :: 0 <= i < |r| ==> !IsSpace(ECMAScript, r[i])
    ensures text == None ==> r == []
    ensures text.Some? ==> r == StripSpaces(ECMAScript, text.value)
  {
    StripSpaces(ECMAScript, text.GetOr(""))
  }

  /** A half-width space, a full-width space, a line break or a tab anywhere in the OCR text disappears. */
  lemma CleanOcrTextDropsSpace(x: string, y: string, c: char)
    requires c == ' ' || c == '\U{3000}' || c == '\n' || c == '\t'
    ensures CleanOcrText(Some(x + [c] + y)) == CleanOcrText(Some(x + y))
  {
    StripSpacesAppend(ECMAScript, x + [c], y);
    StripSpacesAppend(ECMAScript, x, [c]);
    StripSpacesOfChar(ECMAScript, c);
    StripSpacesAppend(ECMAScript, x, y);
    assert StripSpaces(ECMAScript, x) + [] == StripSpaces(ECMAScript, x);
  }
}
