/**
 * The tokenizer `re.findall(r'\w+|[^\w\s]', text)`: the scan reports, left
 * to right, every maximal run of word characters and every single character
 * that is neither a word character nor whitespace; whitespace is skipped.
 *
 * `Scan` is the operational scan. `MatchesFrom` describes its result
 * declaratively (every span is a match, everything between matches is
 * whitespace), and `ScanIsTheOnlyMatching` proves the two agree.
 */
module Tokenizer {
  import opened Chars

  /** The half-open slice `[start, stop)` of the input that a match covers. */
  datatype Span = Span(start: nat, stop: nat)

  /** The end of the run of word characters that begins at `i`. */
  function RunEnd(s: string, i: nat): (j: nat)
    requires i <= |s|
    ensures i <= j <= |s|
    ensures forall p :: i <= p < j ==> IsWordChar(s[p])
    ensures j == |s| || !IsWordChar(s[j])
    decreases |s| - i
  {
    if i < |s| && IsWordChar(s[i]) then RunEnd(s, i + 1) else i
  }

  /** The matches `re.findall` reports when it resumes scanning at position `i`. */
  function Scan(s: string, i: nat): (r: seq<Span>)
    requires i <= |s|
    ensures forall k :: 0 <= k < |r| ==> i <= r[k].start < r[k].stop <= |s|
    ensures forall k :: 0 < k < |r| ==> r[k - 1].stop <= r[k].start
    decreases |s| - i
  {
    if i == |s| then []
    else if IsSpace(s[i]) then Scan(s, i + 1)
    else if IsWordChar(s[i]) then
      var j := RunEnd(s, i);
      [Span(i, j)] + Scan(s, j)
    else [Span(i, i + 1)] + Scan(s, i + 1)
  }

  /** The text of every span, in order. */
  function Texts(s: string, sp: seq<Span>): (r: seq<string>)
    requires forall k :: 0 <= k < |sp| ==> sp[k].start <= sp[k].stop <= |s|
    ensures |r| == |sp|
    ensures forall k :: 0 <= k < |sp| ==> r[k] == s[sp[k].start..sp[k].stop]
  {
    if |sp| == 0 then [] else [s[sp[0].start..sp[0].stop]] + Texts(s, sp[1..])
  }

  /** The token list of `text`. */
  function Tokenize(text: string): (r: seq<string>)
    ensures forall k :: 0 <= k < |r| ==> IsToken(r[k])
    ensures Concat(r) == RemoveSpaces(text)
    ensures r == [] <==> RemoveSpaces(text) == []
  {
    var sp := Scan(text, 0);
    ScanMatches(text, 0);
    ScanKeepsNonSpace(text, 0);
    assert text[0..] == text;
    var r := Texts(text, sp);
    assert r != [] ==> Concat(r) != [] by {
      if r != [] {
        assert Concat(r) == r[0] + Concat(r[1..]);
        assert |r[0]| > 0 by { assert IsToken(r[0]); }
      }
    }
    r
  }

  /** The concatenation of all tokens. */
  function Concat(ts: seq<string>): string
  {
    if |ts| == 0 then [] else ts[0] + Concat(ts[1..])
  }

  /** A token: a non-empty run of word characters, or one symbol character. */
  predicate IsToken(t: string) {
    |t| > 0 && ((forall p :: 0 <= p < |t| ==> IsWordChar(t[p])) || (|t| == 1 && IsSymbol(t[0])))
  }

  // ---------------------------------------------------------------------
  // Declarative description of the matches

  /** `sp` covers a maximal run of word characters of `s`. */
  ghost predicate WordRun(s: string, sp: Span) {
    && sp.start < sp.stop <= |s|
    && (forall p :: sp.start <= p < sp.stop ==> IsWordChar(s[p]))
    && (sp.start == 0 || !IsWordChar(s[sp.start - 1]))
    && (sp.stop == |s| || !IsWordChar(s[sp.stop]))
  }

  /** `sp` covers exactly one character matched by `[^\w\s]`. */
  ghost predicate SymbolAt(s: string, sp: Span) {
    sp.start < |s| && sp.stop == sp.start + 1 && IsSymbol(s[sp.start])
  }

  ghost predicate IsMatch(s: string, sp: Span) {
    WordRun(s, sp) || SymbolAt(s, sp)
  }

  /** Every character of `s[lo..hi]` is whitespace. */
  ghost predicate Blank(s: string, lo: nat, hi: nat) {
    lo <= hi <= |s| && forall p :: lo <= p < hi ==> IsSpace(s[p])
  }

  /** The spans `sp` are matches, in order, and the text of `s` from `i` on
      that they leave uncovered is whitespace. */
  ghost predicate MatchesFrom(s: string, i: nat, sp: seq<Span>) {
    && i <= |s|
    && (forall k :: 0 <= k < |sp| ==> IsMatch(s, sp[k]))
    && (|sp| == 0 ==> Blank(s, i, |s|))
    && (|sp| > 0 ==> Blank(s, i, sp[0].start) && Blank(s, sp[|sp| - 1].stop, |s|))
    && (forall k :: 0 < k < |sp| ==> Blank(s, sp[k - 1].stop, sp[k].start))
  }

  /** Position `i` is not strictly inside a run of word characters. */
  ghost predicate Boundary(s: string, i: nat)
    requires i <= |s|
  {
    i == 0 || i == |s| || !IsWordChar(s[i - 1]) || !IsWordChar(s[i])
  }

  /** Prepending a match and the whitespace before it. */
  lemma MatchesCons(s: string, i: nat, x: Span, rest: seq<Span>)
    requires i <= x.start && IsMatch(s, x) && Blank(s, i, x.start)
    requires MatchesFrom(s, x.stop, rest)
    ensures MatchesFrom(s, i, [x] + rest)
  {
    var sp := [x] + rest;
    assert forall k :: 0 < k < |sp| ==> sp[k] == rest[k - 1];
    if |rest| > 0 {
      assert sp[|sp| - 1] == rest[|rest| - 1];
    }
  }

  /** Skipping one whitespace character before the matches. */
  lemma MatchesSkipSpace(s: string, i: nat, sp: seq<Span>)
    requires i < |s| && IsSpace(s[i]) && MatchesFrom(s, i + 1, sp)
    ensures MatchesFrom(s, i, sp)
  {
    if |sp| > 0 {
      assert Blank(s, i + 1, sp[0].start);
    } else {
      assert Blank(s, i + 1, |s|);
    }
  }

  /** Splitting off the first match. */
  lemma MatchesUncons(s: string, i: nat, sp: seq<Span>)
    requires MatchesFrom(s, i, sp) && |sp| > 0
    ensures IsMatch(s, sp[0]) && Blank(s, i, sp[0].start)
    ensures MatchesFrom(s, sp[0].stop, sp[1..])
  {
    var rest := sp[1..];
    assert IsMatch(s, sp[0]);
    assert forall k :: 0 <= k < |rest| ==> rest[k] == sp[k + 1];
    if |rest| > 0 {
      assert Blank(s, sp[0].stop, sp[1].start);
    }
  }

  /** The scan only reports matches and skips only whitespace. */
  lemma {:induction false} ScanMatches(s: string, i: nat)
    requires i <= |s| && Boundary(s, i)
    ensures MatchesFrom(s, i, Scan(s, i))
    decreases |s| - i
  {
    if i == |s| {
    } else if IsSpace(s[i]) {
      WordCharIsNotSpace(s[i]);
      ScanMatches(s, i + 1);
      MatchesSkipSpace(s, i, Scan(s, i + 1));
    } else {
      var j := if IsWordChar(s[i]) then RunEnd(s, i) else i + 1;
      assert IsMatch(s, Span(i, j));
      ScanMatches(s, j);
      MatchesCons(s, i, Span(i, j), Scan(s, j));
    }
  }

  /** Where the text is exhausted there are no matches. */
  lemma MatchesAtEnd(s: string, sp: seq<Span>)
    requires MatchesFrom(s, |s|, sp)
    ensures sp == []
  {
    if |sp| > 0 {
      MatchesUncons(s, |s|, sp);
    }
  }

  /** A whitespace character is never part of a match. */
  lemma MatchesPastSpace(s: string, i: nat, sp: seq<Span>)
    requires i < |s| && IsSpace(s[i]) && MatchesFrom(s, i, sp)
    ensures MatchesFrom(s, i + 1, sp)
  {
    WordCharIsNotSpace(s[i]);
    if |sp| > 0 {
      MatchesUncons(s, i, sp);
      assert sp[0].start != i;
      assert Blank(s, i + 1, sp[0].start);
    }
  }

  /** A non-whitespace character starts the next match. */
  lemma MatchStartsAt(s: string, i: nat, sp: seq<Span>)
    requires i < |s| && !IsSpace(s[i]) && MatchesFrom(s, i, sp)
    ensures |sp| > 0 && sp[0].start == i && IsMatch(s, sp[0])
    ensures MatchesFrom(s, sp[0].stop, sp[1..])
  {
    assert !Blank(s, i, |s|);
    MatchesUncons(s, i, sp);
    assert sp[0].start == i;
  }

  /** A match is the maximal word run or the single symbol at its start. */
  lemma MatchIsDetermined(s: string, x: Span)
    requires IsMatch(s, x)
    ensures x.stop == if IsWordChar(s[x.start]) then RunEnd(s, x.start) else x.start + 1
  {
    if IsWordChar(s[x.start]) {
      assert WordRun(s, x);
      RunEndIsMaximal(s, x.start, x.stop);
    }
  }

  /** A non-whitespace character starts the next match, and that match
      is the one the scan reports there. */
  lemma MatchesHead(s: string, i: nat, sp: seq<Span>)
    requires i < |s| && !IsSpace(s[i]) && MatchesFrom(s, i, sp)
    ensures |sp| > 0
    ensures sp[0] == Span(i, if IsWordChar(s[i]) then RunEnd(s, i) else i + 1)
    ensures MatchesFrom(s, sp[0].stop, sp[1..])
  {
    MatchStartsAt(s, i, sp);
    MatchIsDetermined(s, sp[0]);
  }

  /** Any sequence of matches that leaves only whitespace uncovered is the
      one the scan produces. */
  lemma {:induction false} MatchesAreUnique(s: string, i: nat, sp: seq<Span>)
    requires MatchesFrom(s, i, sp)
    ensures sp == Scan(s, i)
    decreases |s| - i
  {
    if i == |s| {
      MatchesAtEnd(s, sp);
    } else if IsSpace(s[i]) {
      MatchesPastSpace(s, i, sp);
      MatchesAreUnique(s, i + 1, sp);
    } else {
      MatchesHead(s, i, sp);
      MatchesAreUnique(s, sp[0].stop, sp[1..]);
      assert sp == [sp[0]] + sp[1..];
    }
  }

  lemma {:induction false} RunEndIsMaximal(s: string, i: nat, j: nat)
    requires i <= j <= |s|
    requires forall p :: i <= p < j ==> IsWordChar(s[p])
    requires j == |s| || !IsWordChar(s[j])
    ensures RunEnd(s, i) == j
    decreases j - i
  {
    if i < j {
      RunEndIsMaximal(s, i + 1, j);
    }
  }

  /** The scan from the start of the text is exactly the matching
      `re.findall` describes: it is one, and no other is. */
  lemma ScanIsTheOnlyMatching(s: string, sp: seq<Span>)
    ensures MatchesFrom(s, 0, Scan(s, 0))
    ensures MatchesFrom(s, 0, sp) <==> sp == Scan(s, 0)
  {
    ScanMatches(s, 0);
    if MatchesFrom(s, 0, sp) {
      MatchesAreUnique(s, 0, sp);
    }
  }

  // ---------------------------------------------------------------------
  // Token-level properties

  lemma {:induction false} RemoveSpacesOfRun(s: string, i: nat, j: nat)
    requires i <= j <= |s|
    requires forall p :: i <= p < j ==> !IsSpace(s[p])
    ensures RemoveSpaces(s[i..]) == s[i..j] + RemoveSpaces(s[j..])
    decreases j - i
  {
    if i < j {
      assert s[i..][1..] == s[i + 1..];
      assert RemoveSpaces(s[i..]) == [s[i]] + RemoveSpaces(s[i + 1..]);
      RemoveSpacesOfRun(s, i + 1, j);
      var tail := RemoveSpaces(s[j..]);
      assert s[i..j] == [s[i]] + s[i + 1..j];
      assert [s[i]] + (s[i + 1..j] + tail) == ([s[i]] + s[i + 1..j]) + tail;
    }
  }

  lemma TextsCons(s: string, x: Span, rest: seq<Span>)
    requires x.start <= x.stop <= |s|
    requires forall k :: 0 <= k < |rest| ==> rest[k].start <= rest[k].stop <= |s|
    ensures Texts(s, [x] + rest) == [s[x.start..x.stop]] + Texts(s, rest)
  {
    assert ([x] + rest)[1..] == rest;
  }

  /** `x` lies inside `s` and its text is a token. */
  ghost predicate TokenSpan(s: string, x: Span) {
    x.start <= x.stop <= |s| && IsToken(s[x.start..x.stop])
  }

  lemma TokenSpansCons(s: string, x: Span, rest: seq<Span>)
    requires TokenSpan(s, x)
    requires forall k :: 0 <= k < |rest| ==> TokenSpan(s, rest[k])
    ensures forall k :: 0 <= k < |[x] + rest| ==> TokenSpan(s, ([x] + rest)[k])
  {
    assert forall k :: 0 < k < |[x] + rest| ==> ([x] + rest)[k] == rest[k - 1];
  }

  /** Every span the scan reports has the text of a token. */
  lemma {:induction false} ScanYieldsTokens(s: string, i: nat)
    requires i <= |s|
    ensures forall k :: 0 <= k < |Scan(s, i)| ==> TokenSpan(s, Scan(s, i)[k])
    decreases |s| - i
  {
    if i < |s| && !IsSpace(s[i]) {
      var j := if IsWordChar(s[i]) then RunEnd(s, i) else i + 1;
      ScanYieldsTokens(s, j);
      assert Scan(s, i) == [Span(i, j)] + Scan(s, j);
      assert TokenSpan(s, Span(i, j));
      TokenSpansCons(s, Span(i, j), Scan(s, j));
    } else if i < |s| {
      ScanYieldsTokens(s, i + 1);
    }
  }

  /** Concatenating the tokens from `i` on yields the rest of the text
      without its whitespace. */
  lemma {:induction false} ScanKeepsNonSpace(s: string, i: nat)
    requires i <= |s|
    ensures forall k :: 0 <= k < |Scan(s, i)| ==> IsToken(Texts(s, Scan(s, i))[k])
    ensures Concat(Texts(s, Scan(s, i))) == RemoveSpaces(s[i..])
    decreases |s| - i
  {
    ScanYieldsTokens(s, i);
    if i == |s| {
    } else if IsSpace(s[i]) {
      ScanKeepsNonSpace(s, i + 1);
      assert s[i..][1..] == s[i + 1..];
    } else {
      var j := if IsWordChar(s[i]) then RunEnd(s, i) else i + 1;
      ScanKeepsNonSpace(s, j);
      TextsCons(s, Span(i, j), Scan(s, j));
      forall p | i <= p < j ensures !IsSpace(s[p]) {
        WordCharIsNotSpace(s[p]);
      }
      RemoveSpacesOfRun(s, i, j);
    }
  }

  lemma MatchAt(s: string, i: nat, sp: seq<Span>, k: nat)
    requires MatchesFrom(s, i, sp) && k < |sp|
    ensures IsMatch(s, sp[k])
  {}

  /** Every non-whitespace character from `i` on lies inside some match. */
  lemma {:induction false} ScanCovers(s: string, i: nat, p: nat)
    requires i <= p < |s| && !IsSpace(s[p])
    ensures exists k :: 0 <= k < |Scan(s, i)| && Scan(s, i)[k].start <= p < Scan(s, i)[k].stop
    decreases |s| - i
  {
    if IsSpace(s[i]) {
      assert Scan(s, i) == Scan(s, i + 1);
      ScanCovers(s, i + 1, p);
    } else {
      var j := if IsWordChar(s[i]) then RunEnd(s, i) else i + 1;
      var r := Scan(s, i);
      assert r == [Span(i, j)] + Scan(s, j);
      if p < j {
        assert r[0].start <= p < r[0].stop;
      } else {
        ScanCovers(s, j, p);
        var k :| 0 <= k < |Scan(s, j)| && Scan(s, j)[k].start <= p < Scan(s, j)[k].stop;
        assert r[k + 1] == Scan(s, j)[k];
      }
    }
  }

  /** A match covering a word character followed by another word
      character extends past that second character. */
  lemma MatchExtendsOverWordChars(s: string, x: Span, p: nat)
    requires IsMatch(s, x) && x.start <= p < x.stop
    requires p + 1 < |s| && IsWordChar(s[p]) && IsWordChar(s[p + 1])
    ensures p + 1 < x.stop
  {
    assert !SymbolAt(s, x);
  }

  /** Two adjacent word characters always end up in the same token. */
  lemma AdjacentWordCharsShareToken(s: string, p: nat)
    requires p + 1 < |s| && IsWordChar(s[p]) && IsWordChar(s[p + 1])
    ensures exists k :: 0 <= k < |Scan(s, 0)| && Scan(s, 0)[k].start <= p && p + 1 < Scan(s, 0)[k].stop
  {
    var sp := Scan(s, 0);
    WordCharIsNotSpace(s[p]);
    ScanCovers(s, 0, p);
    var k :| 0 <= k < |sp| && sp[k].start <= p < sp[k].stop;
    ScanMatches(s, 0);
    MatchAt(s, 0, sp, k);
    MatchExtendsOverWordChars(s, sp[k], p);
  }
}
