/**
 * The negation- and modifier-aware scorer of `analyze_sentiment`: one pass
 * over the tokens that emits a `(token, score)` pair for every token.
 *
 * The AFINN lexicon is the parameter `lex`; it is always queried with the
 * lowercased token, and nothing is assumed about its values.
 */
module Scorer {
  import opened Chars

  /** The lexicon: a base polarity for every (lowercased) word, 0 for unknown words. */
  type Lexicon = string -> real

  /** The words that invert the score of the word after them. */
  const Negations: set<string> := {"not", "no", "never", "hardly"}

  /** The words that shift the score of the word after them, with their shift. */
  const Modifiers: map<string, real> :=
    map["very" := 1.0, "extremely" := 2.0, "absolutely" := 2.0, "totally" := 2.0, "slightly" := -0.5]

  /** One entry of the output: the token as written and its adjusted score. */
  datatype ScoredToken = ScoredToken(text: string, score: real)

  predicate IsNegation(t: string) {
    Lower(t) in Negations
  }

  /** A negation is looked up first, so a word in both tables would act as a negation. */
  predicate IsModifier(t: string) {
    !IsNegation(t) && Lower(t) in Modifiers
  }

  /** A word that adjusts the word after it. */
  predicate IsTrigger(t: string) {
    IsNegation(t) || IsModifier(t)
  }

  /** The lexicon's score of a token, looked up in lower case. */
  function Base(lex: Lexicon, t: string): real {
    lex(Lower(t))
  }

  function Abs(x: real): real {
    if x < 0.0 then -x else x
  }

  /** The score given to a word of base score `b` that follows `trigger`.
      A negation reverses the word's polarity and keeps its magnitude. A
      modifier shifts the score by its weight whatever the word's sign:
      "very" raises it by 1 point, "extremely", "absolutely" and "totally"
      by 2 points, and "slightly" lowers it by half a point. */
  function Adjust(trigger: string, b: real): (r: real)
    requires IsTrigger(trigger)
    ensures IsNegation(trigger) ==> (r > 0.0 <==> b < 0.0) && (r < 0.0 <==> b > 0.0)
    ensures IsNegation(trigger) ==> Abs(r) == Abs(b)
    ensures IsModifier(trigger) ==> (r < b <==> Lower(trigger) == "slightly")
    ensures IsModifier(trigger) && Lower(trigger) != "slightly" ==> b + 1.0 <= r <= b + 2.0
    ensures IsModifier(trigger) ==> b - 0.5 <= r
    ensures IsModifier(trigger) && Lower(trigger) == "very" ==> r == b + 1.0
    ensures IsModifier(trigger) && Lower(trigger) in {"extremely", "absolutely", "totally"} ==> r == b + 2.0
    ensures IsModifier(trigger) && Lower(trigger) == "slightly" ==> r == b - 0.5
  {
    if IsNegation(trigger) then -b else b + Modifiers[Lower(trigger)]
  }

  /** The pairs emitted by the loop when it starts an iteration at index `i`. */
  function ScoreFrom(lex: Lexicon, toks: seq<string>, i: nat): (r: seq<ScoredToken>)
    requires i <= |toks|
    ensures |r| == |toks| - i
    ensures forall k :: 0 <= k < |r| ==> r[k].text == toks[i + k]
    decreases |toks| - i
  {
    if i == |toks| then []
    else if IsTrigger(toks[i]) then
      if i + 1 < |toks| && Base(lex, toks[i + 1]) != 0.0 then
        [ScoredToken(toks[i], 0.0), ScoredToken(toks[i + 1], Adjust(toks[i], Base(lex, toks[i + 1])))]
          + ScoreFrom(lex, toks, i + 2)
      else
        [ScoredToken(toks[i], 0.0)] + ScoreFrom(lex, toks, i + 1)
    else
      [ScoredToken(toks[i], Base(lex, toks[i]))] + ScoreFrom(lex, toks, i + 1)
  }

  /** The sum of the scores of `ws`. */
  function SumScores(ws: seq<ScoredToken>): real
  {
    if |ws| == 0 then 0.0 else SumScores(ws[..|ws| - 1]) + ws[|ws| - 1].score
  }

  lemma SumScoresAppend(ws: seq<ScoredToken>, x: ScoredToken)
    ensures SumScores(ws + [x]) == SumScores(ws) + x.score
  {
    assert (ws + [x])[..|ws|] == ws;
  }

  /** The sum over two consecutive parts is the sum of the parts' sums. */
  lemma {:induction false} SumScoresConcat(ws: seq<ScoredToken>, more: seq<ScoredToken>)
    ensures SumScores(ws + more) == SumScores(ws) + SumScores(more)
    decreases |more|
  {
    if |more| > 0 {
      var init, last := more[..|more| - 1], more[|more| - 1];
      assert more == init + [last];
      assert ws + more == (ws + init) + [last];
      SumScoresAppend(ws + init, last);
      SumScoresAppend(init, last);
      SumScoresConcat(ws, init);
    } else {
      assert ws + more == ws;
    }
  }

  // ---------------------------------------------------------------------
  // Position-by-position description of the output

  /** Token `k` is taken as the argument of the trigger before it rather
      than processed on its own. */
  ghost predicate Consumed(lex: Lexicon, toks: seq<string>, k: nat)
    requires k < |toks|
    decreases k
  {
    k > 0 && !Consumed(lex, toks, k - 1) && IsTrigger(toks[k - 1]) && Base(lex, toks[k]) != 0.0
  }

  /** The score the scorer gives token `k`. */
  ghost function ExpectedScore(lex: Lexicon, toks: seq<string>, k: nat): real
    requires k < |toks|
  {
    if Consumed(lex, toks, k) then Adjust(toks[k - 1], Base(lex, toks[k]))
    else if IsTrigger(toks[k]) then 0.0
    else Base(lex, toks[k])
  }

  /** `ScoreFrom(lex, toks, i)` gives every position from `i` on its
      expected score. */
  ghost predicate ExpectedFrom(lex: Lexicon, toks: seq<string>, i: nat)
    requires i <= |toks|
  {
    forall k :: i <= k < |toks| ==> ScoreFrom(lex, toks, i)[k - i].score == ExpectedScore(lex, toks, k)
  }

  /** An unconsumed trigger is scored 0 and consumes the next token when
      that token's base score is nonzero; the token after them is
      unconsumed. */
  lemma ExpectedAtPair(lex: Lexicon, toks: seq<string>, i: nat)
    requires i + 1 < |toks| && !Consumed(lex, toks, i)
    requires IsTrigger(toks[i]) && Base(lex, toks[i + 1]) != 0.0
    ensures ExpectedScore(lex, toks, i) == 0.0
    ensures Consumed(lex, toks, i + 1)
    ensures ExpectedScore(lex, toks, i + 1) == Adjust(toks[i], Base(lex, toks[i + 1]))
    ensures i + 2 < |toks| ==> !Consumed(lex, toks, i + 2)
  {}

  /** An unconsumed trigger followed by a token of nonzero base score emits
      both, and the token after them is unconsumed. */
  lemma ExpectedFromPair(lex: Lexicon, toks: seq<string>, i: nat)
    requires i + 1 < |toks| && !Consumed(lex, toks, i)
    requires IsTrigger(toks[i]) && Base(lex, toks[i + 1]) != 0.0
    requires ExpectedFrom(lex, toks, i + 2)
    ensures i + 2 < |toks| ==> !Consumed(lex, toks, i + 2)
    ensures ExpectedFrom(lex, toks, i)
  {
    ExpectedAtPair(lex, toks, i);
    var b := Base(lex, toks[i + 1]);
    var r, rest := ScoreFrom(lex, toks, i), ScoreFrom(lex, toks, i + 2);
    assert r == [ScoredToken(toks[i], 0.0), ScoredToken(toks[i + 1], Adjust(toks[i], b))] + rest;
    forall k | i <= k < |toks|
      ensures r[k - i].score == ExpectedScore(lex, toks, k)
    {
      if i + 2 <= k {
        assert r[k - i] == rest[k - (i + 2)];
      }
    }
  }

  /** Any other unconsumed token emits one pair, and the next token is
      unconsumed. */
  lemma ExpectedFromSingle(lex: Lexicon, toks: seq<string>, i: nat)
    requires i < |toks| && !Consumed(lex, toks, i)
    requires !(IsTrigger(toks[i]) && i + 1 < |toks| && Base(lex, toks[i + 1]) != 0.0)
    requires ExpectedFrom(lex, toks, i + 1)
    ensures i + 1 < |toks| ==> !Consumed(lex, toks, i + 1)
    ensures ExpectedFrom(lex, toks, i)
  {
    var r, rest := ScoreFrom(lex, toks, i), ScoreFrom(lex, toks, i + 1);
    assert forall d :: 1 <= d < |r| ==> r[d] == rest[d - 1];
  }

  /** Starting at an unconsumed position, the scorer emits the expected
      score for every later position. */
  lemma {:induction false} ScoreFromIsExpected(lex: Lexicon, toks: seq<string>, i: nat)
    requires i <= |toks|
    requires i < |toks| ==> !Consumed(lex, toks, i)
    ensures ExpectedFrom(lex, toks, i)
    decreases |toks| - i
  {
    if i < |toks| {
      if IsTrigger(toks[i]) && i + 1 < |toks| && Base(lex, toks[i + 1]) != 0.0 {
        assert Consumed(lex, toks, i + 1);
        ScoreFromIsExpected(lex, toks, i + 2);
        ExpectedFromPair(lex, toks, i);
      } else {
        assert i + 1 < |toks| ==> !Consumed(lex, toks, i + 1);
        ScoreFromIsExpected(lex, toks, i + 1);
        ExpectedFromSingle(lex, toks, i);
      }
    }
  }

  /** The output, position by position: a consumed token gets its base
      score adjusted by the trigger before it, an unconsumed trigger gets
      0, and every other token gets its own base score. */
  lemma ScoreIsExpected(lex: Lexicon, toks: seq<string>)
    ensures forall k :: 0 <= k < |toks| ==>
      ScoreFrom(lex, toks, 0)[k] == ScoredToken(toks[k], ExpectedScore(lex, toks, k))
  {
    ScoreFromIsExpected(lex, toks, 0);
  }

  /** Tokens with the same lowercase form play the same role. */
  lemma SameLowerSameRole(lex: Lexicon, t: string, t': string, b: real)
    requires Lower(t) == Lower(t')
    ensures IsNegation(t) == IsNegation(t') && IsTrigger(t) == IsTrigger(t')
    ensures Base(lex, t) == Base(lex, t')
    ensures IsTrigger(t) ==> Adjust(t, b) == Adjust(t', b)
  {}

  lemma {:induction false} ConsumedIgnoresCase(lex: Lexicon, toks: seq<string>, toks': seq<string>, k: nat)
    requires |toks| == |toks'| && k < |toks|
    requires forall j :: 0 <= j < |toks| ==> Lower(toks[j]) == Lower(toks'[j])
    ensures Consumed(lex, toks, k) == Consumed(lex, toks', k)
    decreases k
  {
    if k > 0 {
      ConsumedIgnoresCase(lex, toks, toks', k - 1);
      SameLowerSameRole(lex, toks[k - 1], toks'[k - 1], 0.0);
      SameLowerSameRole(lex, toks[k], toks'[k], 0.0);
    }
  }

  /** Scores depend on the tokens only through their lowercase forms:
      table and lexicon matching is case-insensitive, while the emitted
      texts keep the original casing. */
  lemma ScoreIgnoresCase(lex: Lexicon, toks: seq<string>, toks': seq<string>)
    requires |toks| == |toks'|
    requires forall j :: 0 <= j < |toks| ==> Lower(toks[j]) == Lower(toks'[j])
    ensures forall k :: 0 <= k < |toks| ==> ScoreFrom(lex, toks, 0)[k].score == ScoreFrom(lex, toks', 0)[k].score
  {
    ScoreIsExpected(lex, toks);
    ScoreIsExpected(lex, toks');
    forall k | 0 <= k < |toks|
      ensures ExpectedScore(lex, toks, k) == ExpectedScore(lex, toks', k)
    {
      ConsumedIgnoresCase(lex, toks, toks', k);
      SameLowerSameRole(lex, toks[k], toks'[k], 0.0);
      if k > 0 {
        SameLowerSameRole(lex, toks[k - 1], toks'[k - 1], Base(lex, toks[k]));
      }
    }
  }
}
