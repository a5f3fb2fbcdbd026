/**
 * Worked inputs, stated for a small lexicon in which "good" and "great"
 * score 3 and "no" scores -1 (as in AFINN); every other word scores 0.
 */
module Examples {
  import opened Wrappers
  import opened Chars
  import opened Tokenizer
  import opened Scorer
  import opened Classifier
  import opened Analyzer

  function SmallLexicon(w: string): real {
    if w == "good" || w == "great" then 3.0 else if w == "no" then -1.0 else 0.0
  }

  lemma SumOfTwo(a: ScoredToken, b: ScoredToken)
    ensures SumScores([a, b]) == a.score + b.score
  {
    assert [a, b][..1] == [a];
    assert [a][..0] == [];
    assert SumScores([a]) == a.score;
  }

  lemma SumOfThree(a: ScoredToken, b: ScoredToken, c: ScoredToken)
    ensures SumScores([a, b, c]) == a.score + b.score + c.score
  {
    assert [a, b, c][..2] == [a, b];
    SumOfTwo(a, b);
  }

  // ---------------------------------------------------------------------
  // Tokenization of the inputs

  /** A scan that starts on a run of word characters reports the run and
      resumes after it. */
  lemma ScanWord(s: string, i: nat, j: nat)
    requires i < j <= |s|
    requires forall p :: i <= p < j ==> IsWordChar(s[p])
    requires j == |s| || !IsWordChar(s[j])
    ensures Scan(s, i) == [Span(i, j)] + Scan(s, j)
  {
    RunEndIsMaximal(s, i, j);
  }

  lemma ScanTwoWords(s: string, m: nat)
    requires 0 < m && m + 1 < |s| && s[m] == ' '
    requires forall p :: 0 <= p < m ==> IsWordChar(s[p])
    requires forall p :: m < p < |s| ==> IsWordChar(s[p])
    ensures Scan(s, 0) == [Span(0, m), Span(m + 1, |s|)]
  {
    ScanWord(s, m + 1, |s|);
    assert Scan(s, m + 1) == [Span(m + 1, |s|)];
    assert Scan(s, m) == Scan(s, m + 1);
    ScanWord(s, 0, m);
  }

  lemma TokenizeTwoWords(s: string, m: nat)
    requires 0 < m && m + 1 < |s| && s[m] == ' '
    requires forall p :: 0 <= p < m ==> IsWordChar(s[p])
    requires forall p :: m < p < |s| ==> IsWordChar(s[p])
    ensures Tokenize(s) == [s[..m], s[m + 1..]]
  {
    ScanTwoWords(s, m);
    var sp := [Span(0, m), Span(m + 1, |s|)];
    var r := Texts(s, sp);
    assert |r| == 2 && r[0] == s[0..m] && r[1] == s[m + 1..|s|];
    assert s[0..m] == s[..m] && s[m + 1..|s|] == s[m + 1..];
    assert r == [s[..m], s[m + 1..]];
  }

  lemma ScanNotVeryGoodFrom8()
    ensures Scan("not very good", 8) == [Span(9, 13)]
  {
    var s := "not very good";
    assert IsSpace(s[8]);
    assert forall p :: 9 <= p < 13 ==> IsWordChar(s[p]);
    ScanWord(s, 9, 13);
    assert Scan(s, 13) == [];
  }

  lemma ScanNotVeryGoodFrom3()
    ensures Scan("not very good", 3) == [Span(4, 8), Span(9, 13)]
  {
    var s := "not very good";
    assert IsSpace(s[3]);
    assert forall p :: 4 <= p < 8 ==> IsWordChar(s[p]);
    assert !IsWordChar(s[8]);
    ScanWord(s, 4, 8);
    ScanNotVeryGoodFrom8();
  }

  lemma ScanNotVeryGood()
    ensures Scan("not very good", 0) == [Span(0, 3), Span(4, 8), Span(9, 13)]
  {
    var s := "not very good";
    assert forall p :: 0 <= p < 3 ==> IsWordChar(s[p]);
    assert !IsWordChar(s[3]);
    ScanWord(s, 0, 3);
    ScanNotVeryGoodFrom3();
  }

  lemma TokenizeNotVeryGood()
    ensures Tokenize("not very good") == ["not", "very", "good"]
  {
    var s := "not very good";
    var sp := [Span(0, 3), Span(4, 8), Span(9, 13)];
    assert Texts(s, sp) == ["not", "very", "good"] by {
      var r := Texts(s, sp);
      assert |r| == 3 && r[0] == s[0..3] && r[1] == s[4..8] && r[2] == s[9..13];
      assert s[0..3] == "not" && s[4..8] == "very" && s[9..13] == "good";
    }
    ScanNotVeryGood();
  }

  lemma TokenizeGreatBang()
    ensures Tokenize("great!") == ["great", "!"]
  {
    var s := "great!";
    RunEndIsMaximal(s, 0, 5);
    assert Scan(s, 6) == [];
    assert Scan(s, 5) == [Span(5, 6)];
    assert Scan(s, 0) == [Span(0, 5), Span(5, 6)];
    assert s[0..5] == "great" && s[5..6] == "!";
  }

  // ---------------------------------------------------------------------
  // Scoring

  lemma AnalyzeOf(lex: Lexicon, text: string, toks: seq<string>, ws: seq<ScoredToken>, total: real)
    requires Tokenize(text) == toks && ScoreFrom(lex, toks, 0) == ws && SumScores(ws) == total
    ensures Analyze(lex, text) == Analysis(ws, total, Classify(total))
  {}

  lemma TokenizeNotGood()
    ensures Tokenize("not good") == ["not", "good"]
  {
    TokenizeTwoWords("not good", 3);
    assert "not good"[..3] == "not" && "not good"[4..] == "good";
  }

  lemma ScoreNotGood()
    ensures ScoreFrom(SmallLexicon, ["not", "good"], 0) == [ScoredToken("not", 0.0), ScoredToken("good", -3.0)]
  {
    assert Lower("not") == "not" && Lower("good") == "good";
    assert IsNegation("not");
  }

  /** A negation inverts the next word's score. */
  lemma NotGood()
    ensures Analyze(SmallLexicon, "not good")
      == Analysis([ScoredToken("not", 0.0), ScoredToken("good", -3.0)], -3.0, Some(VeryNegative))
  {
    TokenizeNotGood();
    ScoreNotGood();
    SumOfTwo(ScoredToken("not", 0.0), ScoredToken("good", -3.0));
    AnalyzeOf(SmallLexicon, "not good", ["not", "good"], [ScoredToken("not", 0.0), ScoredToken("good", -3.0)], -3.0);
  }

  lemma TokenizeVeryGoodCapitalized()
    ensures Tokenize("Very Good") == ["Very", "Good"]
  {
    TokenizeTwoWords("Very Good", 4);
    assert "Very Good"[..4] == "Very" && "Very Good"[5..] == "Good";
  }

  lemma ScoreVeryGoodCapitalized()
    ensures ScoreFrom(SmallLexicon, ["Very", "Good"], 0) == [ScoredToken("Very", 0.0), ScoredToken("Good", 4.0)]
  {
    assert Lower("Very") == "very" && Lower("Good") == "good";
    assert IsModifier("Very");
  }

  /** A modifier adds its shift to the next word's score; the casing of
      the tokens is kept in the output but ignored by the lookups. */
  lemma VeryGoodCapitalized()
    ensures Analyze(SmallLexicon, "Very Good")
      == Analysis([ScoredToken("Very", 0.0), ScoredToken("Good", 4.0)], 4.0, Some(VeryPositive))
  {
    TokenizeVeryGoodCapitalized();
    ScoreVeryGoodCapitalized();
    SumOfTwo(ScoredToken("Very", 0.0), ScoredToken("Good", 4.0));
    AnalyzeOf(SmallLexicon, "Very Good", ["Very", "Good"], [ScoredToken("Very", 0.0), ScoredToken("Good", 4.0)], 4.0);
  }

  lemma TokenizeSlightlyGoodHasNoStatement()
    ensures Tokenize("slightly good") == ["slightly", "good"]
  {
    TokenizeTwoWords("slightly good", 8);
    assert "slightly good"[..8] == "slightly" && "slightly good"[9..] == "good";
  }

  lemma ScoreSlightlyGoodHasNoStatement()
    ensures ScoreFrom(SmallLexicon, ["slightly", "good"], 0) == [ScoredToken("slightly", 0.0), ScoredToken("good", 2.5)]
  {
    assert Lower("slightly") == "slightly" && Lower("good") == "good";
    assert IsModifier("slightly");
  }

  /** "slightly" shifts by -0.5, which lands the total in the gap between
      Positive and Very Positive: no statement is produced. */
  lemma SlightlyGoodHasNoStatement()
    ensures Analyze(SmallLexicon, "slightly good")
      == Analysis([ScoredToken("slightly", 0.0), ScoredToken("good", 2.5)], 2.5, None)
  {
    TokenizeSlightlyGoodHasNoStatement();
    ScoreSlightlyGoodHasNoStatement();
    SumOfTwo(ScoredToken("slightly", 0.0), ScoredToken("good", 2.5));
    AnalyzeOf(SmallLexicon, "slightly good", ["slightly", "good"], [ScoredToken("slightly", 0.0), ScoredToken("good", 2.5)], 2.5);
  }

  lemma TokenizeNotNo()
    ensures Tokenize("not no") == ["not", "no"]
  {
    TokenizeTwoWords("not no", 3);
    assert "not no"[..3] == "not" && "not no"[4..] == "no";
  }

  lemma ScoreNotNo()
    ensures ScoreFrom(SmallLexicon, ["not", "no"], 0) == [ScoredToken("not", 0.0), ScoredToken("no", 1.0)]
  {
    assert Lower("not") == "not" && Lower("no") == "no";
    assert IsNegation("not");
  }

  /** A trigger word is scored 0 only when it is not itself consumed: "no"
      has a nonzero base score, so "not" consumes it and inverts it. */
  lemma NotNo()
    ensures Analyze(SmallLexicon, "not no")
      == Analysis([ScoredToken("not", 0.0), ScoredToken("no", 1.0)], 1.0, Some(SlightlyPositive))
  {
    TokenizeNotNo();
    ScoreNotNo();
    SumOfTwo(ScoredToken("not", 0.0), ScoredToken("no", 1.0));
    AnalyzeOf(SmallLexicon, "not no", ["not", "no"], [ScoredToken("not", 0.0), ScoredToken("no", 1.0)], 1.0);
  }

  lemma ScoreNotVeryGood()
    ensures ScoreFrom(SmallLexicon, ["not", "very", "good"], 0) == [ScoredToken("not", 0.0), ScoredToken("very", 0.0), ScoredToken("good", 4.0)]
  {
    assert Lower("not") == "not" && Lower("very") == "very" && Lower("good") == "good";
    assert IsNegation("not") && IsModifier("very");
    assert ScoreFrom(SmallLexicon, ["not", "very", "good"], 1) == [ScoredToken("very", 0.0), ScoredToken("good", 4.0)];
  }

  /** Triggers do not compose: "very" has base score 0, so "not" leaves it
      unconsumed, and "very" then modifies "good" on its own. */
  lemma NotVeryGood()
    ensures Analyze(SmallLexicon, "not very good")
      == Analysis([ScoredToken("not", 0.0), ScoredToken("very", 0.0), ScoredToken("good", 4.0)], 4.0, Some(VeryPositive))
  {
    TokenizeNotVeryGood();
    ScoreNotVeryGood();
    SumOfThree(ScoredToken("not", 0.0), ScoredToken("very", 0.0), ScoredToken("good", 4.0));
    AnalyzeOf(SmallLexicon, "not very good", ["not", "very", "good"], [ScoredToken("not", 0.0), ScoredToken("very", 0.0), ScoredToken("good", 4.0)], 4.0);
  }

  lemma ScoreGreatBang()
    ensures ScoreFrom(SmallLexicon, ["great", "!"], 0) == [ScoredToken("great", 3.0), ScoredToken("!", 0.0)]
  {
    assert Lower("great") == "great" && Lower("!") == "!";
    assert !IsTrigger("great") && !IsTrigger("!");
  }

  /** Punctuation is a token of its own, scored by the lexicon like any word. */
  lemma GreatBang()
    ensures Analyze(SmallLexicon, "great!")
      == Analysis([ScoredToken("great", 3.0), ScoredToken("!", 0.0)], 3.0, Some(VeryPositive))
  {
    TokenizeGreatBang();
    ScoreGreatBang();
    SumOfTwo(ScoredToken("great", 3.0), ScoredToken("!", 0.0));
    AnalyzeOf(SmallLexicon, "great!", ["great", "!"], [ScoredToken("great", 3.0), ScoredToken("!", 0.0)], 3.0);
  }
}
