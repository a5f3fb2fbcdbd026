# Sentiment scorer

A Dafny model of the scoring core of the Streamlit sentiment-analysis app
(`streamlit_app.py`). The core has three parts, and each one has its own module:

- **Tokenizer** (`tokenizer.dfy`, with the character classes in `chars.dfy`).
  `re.findall(r'\w+|[^\w\s]', text)` returns the maximal runs of word
  characters and every single character that is neither a word character
  nor whitespace. `Scan` is the left-to-right scan. `MatchesFrom` describes
  its output declaratively, and the two are proved to agree.
- **Scorer** (`scorer.dfy`, `analyzer.dfy`). `analyze_sentiment` makes one
  index-based pass over the tokens:
  - A negation (`not`, `no`, `never`, `hardly`) or modifier (`very` +1,
    `extremely` +2, `absolutely` +2, `totally` +2, `slightly` -0.5) emits a
    zero-score marker for itself.
  - When the next token's lexicon score `b` is nonzero, the trigger also
    emits that token, with `-b` after a negation or `b + weight` after a
    modifier, and skips it.
  - Every other token emits its own lexicon score.

  `ScoreFrom` is the recursive description. `ExpectedScore` gives each
  position's score on its own. `ScoreTokens` is the source's `while` loop,
  proved to compute `ScoreFrom`; `AnalyzeSentiment` tokenizes, runs that
  loop and classifies the total.
- **Classifier** (`classifier.dfy`). `get_sentiment_statement` is a chain
  of thresholds. The chain covers neither `2 < s < 3` nor `-3 < s < -2`, and
  there the source returns `None`. `Classify` returns `Option<Label>` so
  that this gap is explicit.

The AFINN lexicon is a parameter, `lex: string -> real`, with no values
assumed. It is always applied to the lowercased token, as the source does.
`worked_examples.dfy` states, as lemmas, what `Analyze` returns for a few
inputs under a small lexicon.

## Model

| member | source | states |
|---|---|---|
| Tokenizer.Scan | streamlit_app.py:39 | the reported matches are non-empty, lie inside the text and follow each other without overlapping |
| Tokenizer.Tokenize | streamlit_app.py:39 | every token is non-empty and is either a run of word characters or a single character that is neither a word character nor whitespace; the tokens concatenate to the input with its whitespace removed; there are no tokens exactly when the input is all whitespace (in particular when it is empty) |
| Tokenizer.ScanIsTheOnlyMatching | streamlit_app.py:39 | the scan's spans are a matching of the pattern: each span is a maximal word run or one symbol character, and only whitespace lies outside them; every other sequence of spans with that property equals the scan |
| Tokenizer.AdjacentWordCharsShareToken | streamlit_app.py:39 | `\w+` is greedy: two adjacent word characters always fall inside the same match |
| Chars.LowerChar | streamlit_app.py:46 | a capital `A`-`Z` becomes the lowercase letter at the same position of the alphabet `a`-`z`; every other character is returned unchanged; the result is never a capital and keeps the character's word and whitespace class |
| Chars.Lower | streamlit_app.py:46 | lowercasing keeps the length; at every position a capital becomes its lowercase letter and every other character is unchanged; no capital remains and every character keeps its word/non-word class |
| Chars.LowerIsIdempotent | streamlit_app.py:46 | lowercasing an already lowercased string changes nothing |
| Scorer.Adjust | streamlit_app.py:26-64 | after a negation the word's polarity is reversed (positive exactly when its base score is negative, and the other way round) with the same magnitude; after a modifier the score is shifted by the modifier's weight from the table, whatever the word's sign: exactly +1 after "very", exactly +2 after "extremely", "absolutely" or "totally", and exactly -0.5 after "slightly", which is the only modifier that lowers it |
| Scorer.ScoreFrom | streamlit_app.py:44-72 | the loop emits exactly one pair per remaining token, and the first components are the tokens in order with their original casing |
| Scorer.ScoreFromIsExpected | streamlit_app.py:45-72 | a pass that starts at an unconsumed position gives every later position the score `ExpectedScore` assigns it |
| Scorer.ScoreIsExpected | streamlit_app.py:45-72 | position by position, token `k` is emitted with: its base score adjusted by the trigger before it (negated, or shifted by the modifier weight) when that trigger is unconsumed and `k` has a nonzero base score; 0 when it is an unconsumed trigger; otherwise its own base score |
| Scorer.ConsumedIgnoresCase | streamlit_app.py:46-66 | whether a token is consumed by the trigger before it depends only on the lowercase forms of the tokens |
| Scorer.ScoreIgnoresCase | streamlit_app.py:46-68 | two token lists with the same lowercase forms get the same scores at every position, so the table and lexicon lookups are case-insensitive |
| Analyzer.ScoreStep | streamlit_app.py:46-70 | one iteration emits one or two pairs and stays inside the token list; those pairs are exactly the next part of the functional description, and their scores sum to the amount the iteration adds to the total |
| Analyzer.ScoreTokens | streamlit_app.py:40-72 | the loop terminates with `word_scores` equal to the functional description and `overall_score` equal to the sum of the emitted scores |
| Analyzer.AnalyzeSentiment | streamlit_app.py:37-75 | the loop agrees with `Analyze`; the overall score is the sum of the emitted scores; there is one pair per token with the token's text; every pair carries the score `ExpectedScore` gives that position |
| Analyzer.Analyze | streamlit_app.py:37-75 | one pair per token, carrying the token's text; an input that is empty or all whitespace gives `([], 0, Neutral)` |
| Classifier.Classify | streamlit_app.py:9-23 | the result is absent exactly when the score lies in `(2, 3)` or `(-3, -2)`; a score gets a label if and only if the score lies in that label's band (`s >= 3` Very Positive, `1 < s <= 2` Positive, `0 < s <= 1` Slightly Positive, `s == 0` Neutral, `-1 <= s < 0` Slightly Negative, `-2 <= s < -1` Negative, `s <= -3` Very Negative) |
| Classifier.ClassifyIsMonotone | streamlit_app.py:9-23 | a higher score never gets a lower label |
| Classifier.StatementsAreDistinct | streamlit_app.py:10-23 | the seven statement strings are pairwise different |
| Examples.NotGood | streamlit_app.py:49-57 | "not good" scores `[("not", 0), ("good", -3)]`, which totals -3 and is Very Negative |
| Examples.VeryGoodCapitalized | streamlit_app.py:58-66 | "Very Good" scores `[("Very", 0), ("Good", 4)]`, which is Very Positive; the casing is kept in the output but ignored by the lookups |
| Examples.SlightlyGoodHasNoStatement | streamlit_app.py:58-74 | "slightly good" totals 2.5, which falls in the gap of the threshold chain `get_sentiment_statement` (lines 9-23, called at line 74), so no statement is produced |
| Examples.NotNo | streamlit_app.py:49-57 | in "not no", the negation consumes "no" because its base score is nonzero, so "no" is emitted with 1 and not with 0 |
| Examples.NotVeryGood | streamlit_app.py:45-72 | triggers do not compose: "very" has base score 0, so "not" leaves it alone and "very" then modifies "good" to 4 |
| Examples.GreatBang | streamlit_app.py:39 | "great!" tokenizes as `["great", "!"]`; the punctuation is scored by the lexicon like any other token |

## Left out

- The Streamlit interface (lines 77-111) is left out. This covers the title, text area, button, blank-input error, colour-intensity mapping and markdown output, all of which are presentation and I/O.
- The AFINN lexicon is the parameter `lex` and assumes no values. Its word list is third-party data.
- Floating point is left out. Scores are `real`, so sums are exact, whereas the source adds Python floats.
- Unicode `\w` and `str.lower` are left out. `\w` is ASCII letters, digits and `_`. `\s` is the set of characters `str.isspace` accepts. Lowercasing folds only `A`-`Z`.
- A negation or modifier word scores 0 only when the trigger before it does not consume it. The model follows the code here, and `Examples.NotNo` shows such a case.
- For scores in the classifier's gaps, the source's `None` is kept as an absent label. It is not treated as an error, because the intended label for those scores is not evident.
