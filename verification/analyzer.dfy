/**
 * `analyze_sentiment`: tokenize, score every token, sum the scores and
 * classify the sum. `Analyze` is the functional description. The method
 * `ScoreTokens` is the source's index-based `while` loop, proved to compute
 * `ScoreFrom`; `AnalyzeSentiment` tokenizes, calls it and classifies the
 * total, and is proved to return what `Analyze` describes.
 */
module Analyzer {
  import opened Wrappers
  import opened Chars
  import opened Tokenizer
  import opened Scorer
  import opened Classifier

  /** The triple the source returns: the scored tokens, the overall score
      and the statement (absent when the score falls in a gap). */
  datatype Analysis = Analysis(wordScores: seq<ScoredToken>, overall: real, statement: Option<Label>)

  function Analyze(lex: Lexicon, text: string): (r: Analysis)
    ensures |r.wordScores| == |Tokenize(text)|
    ensures forall k :: 0 <= k < |r.wordScores| ==> r.wordScores[k].text == Tokenize(text)[k]
    ensures RemoveSpaces(text) == [] ==> r == Analysis([], 0.0, Some(Neutral))
  {
    var ws := ScoreFrom(lex, Tokenize(text), 0);
    Analysis(ws, SumScores(ws), Classify(SumScores(ws)))
  }

  /** `step` is what `ScoreFrom(lex, toks, i)` starts with, and the rest of
      it scores the tokens after the ones `step` covers. */
  ghost predicate Continues(lex: Lexicon, toks: seq<string>, i: nat, step: seq<ScoredToken>)
    requires i + |step| <= |toks|
  {
    ScoreFrom(lex, toks, i) == step + ScoreFrom(lex, toks, i + |step|)
  }

  // What one iteration of the loop emits from `start` is the head of
  // `ScoreFrom(lex, toks, start)`, in each of the three shapes an
  // iteration can take.

  lemma StepConsumes(lex: Lexicon, toks: seq<string>, start: nat, step: seq<ScoredToken>)
    requires start + 1 < |toks| && IsTrigger(toks[start]) && Base(lex, toks[start + 1]) != 0.0
    requires step == [ScoredToken(toks[start], 0.0),
                      ScoredToken(toks[start + 1], Adjust(toks[start], Base(lex, toks[start + 1])))]
    ensures start + |step| <= |toks| && Continues(lex, toks, start, step)
  {}

  lemma StepMarkerOnly(lex: Lexicon, toks: seq<string>, start: nat, step: seq<ScoredToken>)
    requires start < |toks| && IsTrigger(toks[start])
    requires start + 1 < |toks| ==> Base(lex, toks[start + 1]) == 0.0
    requires step == [ScoredToken(toks[start], 0.0)]
    ensures start + |step| <= |toks| && Continues(lex, toks, start, step)
  {}

  lemma StepPlain(lex: Lexicon, toks: seq<string>, start: nat, step: seq<ScoredToken>)
    requires start < |toks| && !IsTrigger(toks[start])
    requires step == [ScoredToken(toks[start], Base(lex, toks[start]))]
    ensures start + |step| <= |toks| && Continues(lex, toks, start, step)
  {}

  /** The pairs of one iteration sum to the score it adds. */
  lemma SumOfStep(emitted: seq<ScoredToken>, score: real)
    requires |emitted| == 1 || |emitted| == 2
    requires emitted[|emitted| - 1].score == score
    requires |emitted| == 2 ==> emitted[0].score == 0.0
    ensures SumScores(emitted) == score
  {
    SumScoresAppend([], emitted[0]);
    assert [] + [emitted[0]] == [emitted[0]];
    if |emitted| == 2 {
      SumScoresAppend([emitted[0]], emitted[1]);
      assert [emitted[0]] + [emitted[1]] == emitted;
    }
  }

  /** One iteration of the source's loop body at index `i`: the pairs it
      appends to `word_scores` and the `score` it adds to the total. */
  method ScoreStep(lex: Lexicon, tokens: seq<string>, i: nat)
    returns (emitted: seq<ScoredToken>, score: real)
    requires i < |tokens|
    ensures 1 <= |emitted| <= 2 && i + |emitted| <= |tokens|
    ensures Continues(lex, tokens, i, emitted)
    ensures SumScores(emitted) == score
  {
    var token := Lower(tokens[i]);
    score := 0.0;
    if token in Negations {
      emitted := [ScoredToken(tokens[i], 0.0)];
      if i + 1 < |tokens| {
        var nextScore := lex(Lower(tokens[i + 1]));
        if nextScore != 0.0 {
          score := -nextScore;
          emitted := emitted + [ScoredToken(tokens[i + 1], score)];
          StepConsumes(lex, tokens, i, emitted);
        } else {
          StepMarkerOnly(lex, tokens, i, emitted);
        }
      } else {
        StepMarkerOnly(lex, tokens, i, emitted);
      }
    } else if token in Modifiers {
      emitted := [ScoredToken(tokens[i], 0.0)];
      if i + 1 < |tokens| {
        var nextScore := lex(Lower(tokens[i + 1]));
        if nextScore != 0.0 {
          score := nextScore + Modifiers[token];
          emitted := emitted + [ScoredToken(tokens[i + 1], score)];
          StepConsumes(lex, tokens, i, emitted);
        } else {
          StepMarkerOnly(lex, tokens, i, emitted);
        }
      } else {
        StepMarkerOnly(lex, tokens, i, emitted);
      }
    } else {
      score := lex(token);
      emitted := [ScoredToken(tokens[i], score)];
      StepPlain(lex, tokens, i, emitted);
    }
    SumOfStep(emitted, score);
  }

  /** `done` is what the scorer emits for the tokens before `i`. */
  ghost predicate ScoredBefore(lex: Lexicon, toks: seq<string>, i: nat, done: seq<ScoredToken>)
    requires i <= |toks|
  {
    done + ScoreFrom(lex, toks, i) == ScoreFrom(lex, toks, 0)
  }

  lemma ScoredBeforeStep(lex: Lexicon, toks: seq<string>, i: nat, done: seq<ScoredToken>, step: seq<ScoredToken>)
    requires i + |step| <= |toks|
    requires ScoredBefore(lex, toks, i, done) && Continues(lex, toks, i, step)
    ensures ScoredBefore(lex, toks, i + |step|, done + step)
  {
    assert done + (step + ScoreFrom(lex, toks, i + |step|)) == (done + step) + ScoreFrom(lex, toks, i + |step|);
  }

  lemma ScoredBeforeEnd(lex: Lexicon, toks: seq<string>, done: seq<ScoredToken>)
    requires ScoredBefore(lex, toks, |toks|, done)
    ensures done == ScoreFrom(lex, toks, 0)
  {
    assert done + [] == done;
  }

  /** The source's loop over the tokens: `i` advances past the one or two
      tokens each iteration emits, and `overall` accumulates the score of
      each iteration. */
  method ScoreTokens(lex: Lexicon, tokens: seq<string>)
    returns (wordScores: seq<ScoredToken>, overall: real)
    ensures wordScores == ScoreFrom(lex, tokens, 0)
    ensures overall == SumScores(wordScores)
  {
    wordScores := [];
    overall := 0.0;
    var i := 0;
    while i < |tokens|
      invariant 0 <= i <= |tokens|
      invariant ScoredBefore(lex, tokens, i, wordScores)
      invariant overall == SumScores(wordScores)
      decreases |tokens| - i
    {
      var emitted, score := ScoreStep(lex, tokens, i);
      SumScoresConcat(wordScores, emitted);
      ScoredBeforeStep(lex, tokens, i, wordScores, emitted);
      wordScores := wordScores + emitted;
      overall := overall + score;
      i := i + |emitted|;
    }
    ScoredBeforeEnd(lex, tokens, wordScores);
  }

  /** `analyze_sentiment` as a whole. */
  method AnalyzeSentiment(lex: Lexicon, text: string)
    returns (wordScores: seq<ScoredToken>, overall: real, statement: Option<Label>)
    ensures Analysis(wordScores, overall, statement) == Analyze(lex, text)
    ensures overall == SumScores(wordScores)
    ensures |wordScores| == |Tokenize(text)|
    ensures forall k :: 0 <= k < |wordScores| ==> wordScores[k].text == Tokenize(text)[k]
    ensures forall k :: 0 <= k < |wordScores| ==>
      wordScores[k].score == ExpectedScore(lex, Tokenize(text), k)
  {
    var tokens := Tokenize(text);
    wordScores, overall := ScoreTokens(lex, tokens);
    statement := Classify(overall);
    ScoreIsExpected(lex, tokens);
  }
}
