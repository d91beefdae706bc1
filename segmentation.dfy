/**
 * The three text splitters of the PDF extractor (`_split_into_paragraphs`,
 * `_split_into_sentences`, `_split_into_words`).
 *
 * Each splitter is modelled the way the regular-expression engine runs it:
 * on positions of the text. The functions below compute the spans
 * (half-open position ranges) of the pieces; the public functions turn the
 * spans into strings. Whitespace is Python's `str.isspace`, which is also
 * what `\s` and `strip()` use; the word-character class `\w` is left
 * abstract as a predicate `isWord` supplied by the caller.
 */
module Segmentation {

  import opened Wrappers

  /** The positions lo .. hi-1 of the text. */
  datatype Span = Span(lo: nat, hi: nat)

  /** Python's `str.isspace` for one character. */
  predicate IsSpace(c: char)
  {
    || ('\t' <= c <= '\r')
    || ('\U{1C}' <= c <= ' ')
    || c == '\U{85}' || c == '\U{A0}' || c == '\U{1680}'
    || ('\U{2000}' <= c <= '\U{200A}')
    || c == '\U{2028}' || c == '\U{2029}' || c == '\U{202F}' || c == '\U{205F}'
    || c == '\U{3000}'
  }

  /** The characters of the sentence-splitting class `[.!?]`. */
  predicate IsTerminator(c: char)
  {
    c == '.' || c == '!' || c == '?'
  }

  predicate InBounds(text: string, spans: seq<Span>)
  {
    forall k | 0 <= k < |spans| :: spans[k].lo <= spans[k].hi <= |text|
  }

  /** The spans lie in [from, until), each one wholly before the next. */
  predicate Ordered(spans: seq<Span>, from: nat, until: nat)
    decreases |spans|
  {
    if spans == [] then from <= until
    else from <= spans[0].lo <= spans[0].hi <= until && Ordered(spans[1..], spans[0].hi, until)
  }

  lemma {:induction false} OrderedBounds(spans: seq<Span>, from: nat, until: nat)
    requires Ordered(spans, from, until)
    ensures from <= until
    ensures forall k | 0 <= k < |spans| :: from <= spans[k].lo <= spans[k].hi <= until
    decreases |spans|
  {
    if spans != [] {
      OrderedBounds(spans[1..], spans[0].hi, until);
      assert forall k | 1 <= k < |spans| :: spans[k] == spans[1..][k - 1];
    }
  }

  /** In ordered spans, each span ends before any later one starts. */
  lemma {:induction false} OrderedBefore(spans: seq<Span>, from: nat, until: nat, a: nat, b: nat)
    requires Ordered(spans, from, until) && a < b < |spans|
    ensures spans[a].hi <= spans[b].lo
    decreases |spans|
  {
    OrderedBounds(spans[1..], spans[0].hi, until);
    if a > 0 {
      OrderedBefore(spans[1..], spans[0].hi, until, a - 1, b - 1);
    } else {
      assert spans[b] == spans[1..][b - 1];
    }
  }

  lemma {:induction false} OrderedWeaken(spans: seq<Span>, from: nat, from': nat, until: nat)
    requires Ordered(spans, from, until) && from' <= from
    ensures Ordered(spans, from', until)
  {
    OrderedBounds(spans, from, until);
  }

  /** Every position of span `inner` lies in span `outer`. */
  predicate Within(inner: Span, outer: Span)
  {
    outer.lo <= inner.lo && inner.hi <= outer.hi
  }

  /** The strings the spans stand for. */
  function Texts(text: string, spans: seq<Span>): (parts: seq<string>)
    requires InBounds(text, spans)
    ensures |parts| == |spans|
    ensures forall k | 0 <= k < |spans| :: parts[k] == text[spans[k].lo..spans[k].hi]
  {
    seq(|spans|, k requires 0 <= k < |spans| => text[spans[k].lo..spans[k].hi])
  }

  // ---------------------------------------------------------------------
  // Scanning

  /** The first position in [from, hi) where P gives `want`, or `hi`. */
  function FindIn(text: string, from: nat, hi: nat, P: char -> bool, want: bool): (i: nat)
    requires from <= hi <= |text|
    ensures from <= i <= hi
    ensures i < hi ==> P(text[i]) == want
    ensures forall k | from <= k < i :: P(text[k]) != want
    decreases hi - from
  {
    if from == hi then hi
    else if P(text[from]) == want then from
    else FindIn(text, from + 1, hi, P, want)
  }

  /** FindIn passes over positions where P does not give `want`. */
  lemma {:induction false} FindInSkips(text: string, from: nat, hi: nat, P: char -> bool, want: bool, b: nat)
    requires from <= b < hi <= |text|
    requires forall m | from <= m <= b :: P(text[m]) != want
    ensures FindIn(text, from, hi, P, want) > b
    decreases hi - from
  {
    if from < b {
      FindInSkips(text, from + 1, hi, P, want, b);
    }
  }

  /** The smallest e in [lo, hi] such that only whitespace follows it up to hi: where `strip()` cuts the right end. */
  function TrimEnd(text: string, lo: nat, hi: nat): (e: nat)
    requires lo <= hi <= |text|
    ensures lo <= e <= hi
    ensures forall p | e <= p < hi :: IsSpace(text[p])
    ensures e > lo ==> !IsSpace(text[e - 1])
    decreases hi - lo
  {
    if hi == lo then lo
    else if !IsSpace(text[hi - 1]) then hi
    else TrimEnd(text, lo, hi - 1)
  }

  /** Python's `strip()` on the piece a span stands for: the span without its leading and trailing whitespace. */
  function Strip(text: string, sp: Span): (r: Span)
    requires sp.lo <= sp.hi <= |text|
    ensures Within(r, sp) && r.lo <= r.hi
    ensures forall p | sp.lo <= p < r.lo :: IsSpace(text[p])
    ensures forall p | r.hi <= p < sp.hi :: IsSpace(text[p])
    ensures r.lo < r.hi ==> !IsSpace(text[r.lo]) && !IsSpace(text[r.hi - 1])
  {
    var lo := FindIn(text, sp.lo, sp.hi, IsSpace, false);
    Span(lo, TrimEnd(text, lo, sp.hi))
  }

  /** The span is not empty and neither starts nor ends with whitespace. */
  predicate IsTrimmed(text: string, sp: Span)
  {
    sp.lo < sp.hi <= |text| && !IsSpace(text[sp.lo]) && !IsSpace(text[sp.hi - 1])
  }

  /**
   * `[p.strip() for p in pieces if p.strip()]` on spans: the stripped pieces
   * that are not empty, in order.
   */
  function StripAndDropEmpty(text: string, pieces: seq<Span>, from: nat): (r: seq<Span>)
    requires Ordered(pieces, from, |text|) && InBounds(text, pieces)
    ensures Ordered(r, from, |text|)
    ensures forall k | 0 <= k < |r| :: IsTrimmed(text, r[k])
    decreases |pieces|
  {
    if pieces == [] then []
    else
      var s := Strip(text, pieces[0]);
      var rest := StripAndDropEmpty(text, pieces[1..], pieces[0].hi);
      if s.lo < s.hi then
        ConsTrimmed(text, s, rest, from, pieces[0].hi);
        [s] + rest
      else
        OrderedWeaken(rest, pieces[0].hi, from, |text|);
        rest
  }

  lemma ConsTrimmed(text: string, s: Span, rest: seq<Span>, from: nat, mid: nat)
    requires from <= s.lo && s.hi <= mid && IsTrimmed(text, s)
    requires Ordered(rest, mid, |text|) && forall k | 0 <= k < |rest| :: IsTrimmed(text, rest[k])
    ensures Ordered([s] + rest, from, |text|)
    ensures forall k | 0 <= k < |[s] + rest| :: IsTrimmed(text, ([s] + rest)[k])
  {
    var r := [s] + rest;
    assert r[1..] == rest;
    OrderedWeaken(rest, mid, s.hi, |text|);
    assert forall k | 1 <= k < |r| :: r[k] == rest[k - 1];
  }

  /** Each kept span is the stripped form of one of the pieces. */
  lemma {:induction false} StrippedOrigin(text: string, pieces: seq<Span>, from: nat, k: nat) returns (j: nat)
    requires Ordered(pieces, from, |text|) && InBounds(text, pieces)
    requires k < |StripAndDropEmpty(text, pieces, from)|
    ensures j < |pieces| && StripAndDropEmpty(text, pieces, from)[k] == Strip(text, pieces[j])
    decreases |pieces|
  {
    var s := Strip(text, pieces[0]);
    if s.lo < s.hi && k == 0 {
      KeptHead(text, pieces, from);
      j := 0;
    } else {
      var k' := KeptTail(text, pieces, from, k);
      var j' := StrippedOrigin(text, pieces[1..], pieces[0].hi, k');
      assert pieces[1..][j'] == pieces[j' + 1];
      j := j' + 1;
    }
  }

  /** A first piece that is not blank is kept first, stripped. */
  lemma KeptHead(text: string, pieces: seq<Span>, from: nat)
    requires Ordered(pieces, from, |text|) && InBounds(text, pieces) && pieces != []
    requires Strip(text, pieces[0]).lo < Strip(text, pieces[0]).hi
    ensures StripAndDropEmpty(text, pieces, from)[0] == Strip(text, pieces[0])
  {
  }

  /** Any kept span other than the stripped first piece is kept from the remaining pieces. */
  lemma KeptTail(text: string, pieces: seq<Span>, from: nat, k: nat) returns (k': nat)
    requires Ordered(pieces, from, |text|) && InBounds(text, pieces)
    requires k < |StripAndDropEmpty(text, pieces, from)|
    requires var s := Strip(text, pieces[0]); !(s.lo < s.hi && k == 0)
    ensures var rest := StripAndDropEmpty(text, pieces[1..], pieces[0].hi);
      k' < |rest| && StripAndDropEmpty(text, pieces, from)[k] == rest[k']
  {
    var s := Strip(text, pieces[0]);
    var rest := StripAndDropEmpty(text, pieces[1..], pieces[0].hi);
    k' := if s.lo < s.hi then k - 1 else k;
  }

  /** A non-whitespace character of a piece survives stripping and filtering. */
  lemma {:induction false} StrippedKeeps(text: string, pieces: seq<Span>, from: nat, j: nat, p: nat) returns (k: nat)
    requires Ordered(pieces, from, |text|) && InBounds(text, pieces)
    requires j < |pieces| && pieces[j].lo <= p < pieces[j].hi && !IsSpace(text[p])
    ensures var r := StripAndDropEmpty(text, pieces, from); k < |r| && r[k].lo <= p < r[k].hi
    decreases |pieces|
  {
    var s := Strip(text, pieces[0]);
    if j == 0 {
      assert s.lo <= p < s.hi;
      k := 0;
    } else {
      var k' := StrippedKeeps(text, pieces[1..], pieces[0].hi, j - 1, p);
      k := if s.lo < s.hi then k' + 1 else k';
    }
  }

  /** Between two consecutive kept spans lies the gap between two consecutive pieces. */
  lemma {:induction false} KeptGapsContainPieceGap(text: string, pieces: seq<Span>, from: nat, k: nat) returns (j: nat)
    requires Ordered(pieces, from, |text|) && InBounds(text, pieces)
    requires k + 1 < |StripAndDropEmpty(text, pieces, from)|
    ensures j + 1 < |pieces|
    ensures var r := StripAndDropEmpty(text, pieces, from); r[k].hi <= pieces[j].hi && pieces[j + 1].lo <= r[k + 1].lo
  {
    var r := StripAndDropEmpty(text, pieces, from);
    var a := StrippedOrigin(text, pieces, from, k);
    var b := StrippedOrigin(text, pieces, from, k + 1);
    OrderedBefore(r, from, |text|, k, k + 1);
    assert IsTrimmed(text, r[k]) && IsTrimmed(text, r[k + 1]);
    j := GapBetweenOrigins(text, pieces, from, r[k], r[k + 1], a, b);
  }

  /**
   * Pieces a and b stripped to two non-empty spans, the first before the
   * second: some piece j ends after the first and the next piece starts
   * before the second.
   */
  lemma GapBetweenOrigins(text: string, pieces: seq<Span>, from: nat, x: Span, y: Span, a: nat, b: nat) returns (j: nat)
    requires Ordered(pieces, from, |text|) && InBounds(text, pieces) && a < |pieces| && b < |pieces|
    requires x == Strip(text, pieces[a]) && y == Strip(text, pieces[b]) && x.lo < x.hi <= y.lo < y.hi
    ensures j + 1 < |pieces| && x.hi <= pieces[j].hi && pieces[j + 1].lo <= y.lo
  {
    if b < a {
      OrderedBefore(pieces, from, |text|, b, a);
    }
    j := b - 1;
    if a < j {
      OrderedBefore(pieces, from, |text|, a, j);
    }
  }

  // ---------------------------------------------------------------------
  // Paragraphs: re.split(r'\n\s*\n', text)

  /** The last newline in [lo, hi), as the position just after it. */
  function LastNewline(text: string, lo: nat, hi: nat): (r: Option<nat>)
    requires lo <= hi <= |text|
    ensures r.Some? ==> lo < r.value <= hi && text[r.value - 1] == '\n'
    ensures r.Some? ==> forall p | r.value <= p < hi :: text[p] != '\n'
    ensures r.None? ==> forall p | lo <= p < hi :: text[p] != '\n'
    decreases hi - lo
  {
    if hi == lo then None
    else if text[hi - 1] == '\n' then Some(hi)
    else LastNewline(text, lo, hi - 1)
  }

  /**
   * Where a match of `\n\s*\n` that starts at i ends, if one starts there:
   * `\s*` first takes the whole run of whitespace after the newline and then
   * gives back characters until a newline follows, so the match ends just
   * after the last newline of that run.
   */
  function SeparatorEnd(text: string, i: nat): (e: Option<nat>)
    requires i < |text|
    ensures e.Some? ==> i + 2 <= e.value <= |text| && text[i] == '\n' && text[e.value - 1] == '\n'
    ensures e.Some? ==> forall p | i < p < e.value :: IsSpace(text[p])
    ensures e.None? && text[i] == '\n' ==> forall b | i < b < |text| && text[b] == '\n' :: !AllSpace(text, i, b)
    ensures e.Some? ==> forall b | e.value <= b < |text| && text[b] == '\n' :: !AllSpace(text, i, b)
  {
    if text[i] != '\n' then None
    else
      var k := FindIn(text, i + 1, |text|, IsSpace, false);
      var e := LastNewline(text, i + 1, k);
      forall b | i < b < |text| && text[b] == '\n' && AllSpace(text, i, b) ensures e.Some? {
        FindInSkips(text, i + 1, |text|, IsSpace, false, b);
      }
      e
  }

  /** The characters strictly between positions a and b are all whitespace. */
  predicate AllSpace(text: string, a: nat, b: nat)
    requires a <= b <= |text|
  {
    forall m | a < m < b :: IsSpace(text[m])
  }

  /** The first position at or after `from` where the separator matches, or |text|. */
  function FindSeparator(text: string, from: nat): (i: nat)
    requires from <= |text|
    ensures from <= i <= |text|
    ensures i < |text| ==> SeparatorEnd(text, i).Some?
    ensures forall k | from <= k < i :: SeparatorEnd(text, k).None?
    decreases |text| - from
  {
    if from == |text| then from
    else if SeparatorEnd(text, from).Some? then from
    else FindSeparator(text, from + 1)
  }

  /** No two newlines in the span have only whitespace between them. */
  predicate NoParagraphBreak(text: string, sp: Span)
    requires sp.lo <= sp.hi <= |text|
  {
    forall a, b | sp.lo <= a < b < sp.hi && text[a] == '\n' && text[b] == '\n' :: !AllSpace(text, a, b)
  }

  lemma NoBreakBeforeSeparator(text: string, from: nat, i: nat)
    requires from <= |text| && i == FindSeparator(text, from)
    ensures NoParagraphBreak(text, Span(from, i))
  {
    forall a, b | from <= a < b < i && text[a] == '\n' && text[b] == '\n' ensures !AllSpace(text, a, b) {
      assert SeparatorEnd(text, a).None?;
    }
  }

  /** The pieces `re.split(r'\n\s*\n', text[from:])` returns, as spans. */
  function ParagraphPieces(text: string, from: nat): (pieces: seq<Span>)
    requires from <= |text|
    ensures Ordered(pieces, from, |text|) && InBounds(text, pieces)
    ensures forall k | 0 <= k < |pieces| :: NoParagraphBreak(text, pieces[k])
    decreases |text| - from
  {
    var i := FindSeparator(text, from);
    NoBreakBeforeSeparator(text, from, i);
    if i == |text| then
      [Span(from, |text|)]
    else
      var e := SeparatorEnd(text, i).value;
      var rest := ParagraphPieces(text, e);
      var pieces := [Span(from, i)] + rest;
      assert forall k | 1 <= k < |pieces| :: pieces[k] == rest[k - 1];
      pieces
  }

  /** Every non-whitespace character lies in a piece: separators are whitespace only. */
  lemma {:induction false} ParagraphPiecesCover(text: string, from: nat, p: nat) returns (k: nat)
    requires from <= p < |text| && !IsSpace(text[p])
    ensures var pieces := ParagraphPieces(text, from); k < |pieces| && pieces[k].lo <= p < pieces[k].hi
    decreases |text| - from
  {
    var i := FindSeparator(text, from);
    if i == |text| || p < i {
      k := 0;
    } else {
      var e := SeparatorEnd(text, i).value;
      assert p >= e;
      var k' := ParagraphPiecesCover(text, e, p);
      k := k' + 1;
    }
  }

  /** Consecutive pieces are separated by exactly one match of the separator. */
  lemma {:induction false} ParagraphPiecesGap(text: string, from: nat, k: nat)
    requires from <= |text| && k + 1 < |ParagraphPieces(text, from)|
    ensures var pieces := ParagraphPieces(text, from);
      pieces[k].hi < |text| && SeparatorEnd(text, pieces[k].hi) == Some(pieces[k + 1].lo)
    decreases |text| - from
  {
    var i := FindSeparator(text, from);
    if k > 0 {
      var e := SeparatorEnd(text, i).value;
      ParagraphPiecesGap(text, e, k - 1);
    }
  }

  // ---------------------------------------------------------------------
  // Sentences: re.split(r'[.!?]+', text)

  /** No position of the span holds a character of the class. */
  predicate NoneIn(text: string, sp: Span, P: char -> bool)
    requires sp.lo <= sp.hi <= |text|
  {
    forall p | sp.lo <= p < sp.hi :: !P(text[p])
  }

  /** The pieces `re.split` returns for a pattern `[C]+` of one character class, as spans. */
  function SplitOnRuns(text: string, from: nat, isSep: char -> bool): (pieces: seq<Span>)
    requires from <= |text|
    ensures Ordered(pieces, from, |text|) && InBounds(text, pieces)
    ensures forall k | 0 <= k < |pieces| :: NoneIn(text, pieces[k], isSep)
    decreases |text| - from
  {
    var i := FindIn(text, from, |text|, isSep, true);
    if i == |text| then
      [Span(from, |text|)]
    else
      var j := FindIn(text, i, |text|, isSep, false);
      var rest := SplitOnRuns(text, j, isSep);
      var pieces := [Span(from, i)] + rest;
      assert forall k | 1 <= k < |pieces| :: pieces[k] == rest[k - 1];
      pieces
  }

  /** Every character outside the separator class lies in a piece. */
  lemma {:induction false} SplitOnRunsCover(text: string, from: nat, isSep: char -> bool, p: nat) returns (k: nat)
    requires from <= p < |text| && !isSep(text[p])
    ensures var pieces := SplitOnRuns(text, from, isSep); k < |pieces| && pieces[k].lo <= p < pieces[k].hi
    decreases |text| - from
  {
    var i := FindIn(text, from, |text|, isSep, true);
    if i == |text| || p < i {
      k := 0;
    } else {
      var j := FindIn(text, i, |text|, isSep, false);
      assert p >= j;
      var k' := SplitOnRunsCover(text, j, isSep, p);
      k := k' + 1;
    }
  }

  /** Every position in [lo, hi) holds a character of the class. */
  predicate AllIn(text: string, lo: nat, hi: nat, P: char -> bool)
    requires lo <= hi <= |text|
  {
    forall p | lo <= p < hi :: P(text[p])
  }

  /** Consecutive pieces are separated by a non-empty run of separator characters. */
  lemma {:induction false} SplitOnRunsGap(text: string, from: nat, isSep: char -> bool, k: nat)
    requires from <= |text| && k + 1 < |SplitOnRuns(text, from, isSep)|
    ensures var pieces := SplitOnRuns(text, from, isSep);
      pieces[k].hi < pieces[k + 1].lo && AllIn(text, pieces[k].hi, pieces[k + 1].lo, isSep)
    decreases |text| - from
  {
    var i := FindIn(text, from, |text|, isSep, true);
    var j := FindIn(text, i, |text|, isSep, false);
    if k > 0 {
      SplitOnRunsGap(text, j, isSep, k - 1);
    }
  }

  // ---------------------------------------------------------------------
  // Words: re.findall(r'\b\w+\b', text)

  /** Position `from` does not fall strictly inside a run of word characters. */
  predicate NotInsideRun(text: string, from: nat, isWord: char -> bool)
    requires from <= |text|
  {
    from == 0 || from == |text| || !isWord(text[from - 1]) || !isWord(text[from])
  }

  /**
   * The span is a non-empty run of word characters that cannot be extended:
   * the characters on either side of it, if any, are not word characters.
   */
  predicate IsMaximalRun(text: string, sp: Span, isWord: char -> bool)
  {
    && sp.lo < sp.hi <= |text|
    && (forall p | sp.lo <= p < sp.hi :: isWord(text[p]))
    && (sp.lo == 0 || !isWord(text[sp.lo - 1]))
    && (sp.hi == |text| || !isWord(text[sp.hi]))
  }

  /** The maximal runs of word characters at or after `from`, as spans. */
  function WordRuns(text: string, from: nat, isWord: char -> bool): (runs: seq<Span>)
    requires from <= |text| && NotInsideRun(text, from, isWord)
    ensures Ordered(runs, from, |text|) && InBounds(text, runs)
    ensures forall k | 0 <= k < |runs| :: IsMaximalRun(text, runs[k], isWord)
    decreases |text| - from
  {
    var i := FindIn(text, from, |text|, isWord, true);
    if i == |text| then []
    else
      var j := FindIn(text, i, |text|, isWord, false);
      var rest := WordRuns(text, j, isWord);
      assert IsMaximalRun(text, Span(i, j), isWord);
      var runs := [Span(i, j)] + rest;
      assert forall k | 1 <= k < |runs| :: runs[k] == rest[k - 1];
      runs
  }

  /** Every word character lies in one of the runs. */
  lemma {:induction false} WordRunsCover(text: string, from: nat, isWord: char -> bool, p: nat) returns (k: nat)
    requires from <= p < |text| && isWord(text[p]) && NotInsideRun(text, from, isWord)
    ensures var runs := WordRuns(text, from, isWord); k < |runs| && runs[k].lo <= p < runs[k].hi
    decreases |text| - from
  {
    var i := FindIn(text, from, |text|, isWord, true);
    var j := FindIn(text, i, |text|, isWord, false);
    if p < j {
      k := 0;
    } else {
      var k' := WordRunsCover(text, j, isWord, p);
      k := k' + 1;
    }
  }

  // ---------------------------------------------------------------------
  // The three splitters

  function ParagraphSpans(text: string): (spans: seq<Span>)
    ensures Ordered(spans, 0, |text|)
    ensures forall k | 0 <= k < |spans| :: IsTrimmed(text, spans[k])
  {
    StripAndDropEmpty(text, ParagraphPieces(text, 0), 0)
  }

  function SentenceSpans(text: string): (spans: seq<Span>)
    ensures Ordered(spans, 0, |text|)
    ensures forall k | 0 <= k < |spans| :: IsTrimmed(text, spans[k])
  {
    StripAndDropEmpty(text, SplitOnRuns(text, 0, IsTerminator), 0)
  }

  function WordSpans(text: string, isWord: char -> bool): (spans: seq<Span>)
    ensures Ordered(spans, 0, |text|)
    ensures forall k | 0 <= k < |spans| :: IsMaximalRun(text, spans[k], isWord)
  {
    WordRuns(text, 0, isWord)
  }

  /** The string is not empty and neither starts nor ends with whitespace. */
  predicate IsStripped(s: string)
  {
    |s| > 0 && !IsSpace(s[0]) && !IsSpace(s[|s| - 1])
  }

  /** No two newlines of the string have only whitespace between them. */
  predicate NoBlankLine(s: string)
  {
    NoParagraphBreak(s, Span(0, |s|))
  }

  lemma TrimmedTextsAreStripped(text: string, spans: seq<Span>)
    requires forall k | 0 <= k < |spans| :: IsTrimmed(text, spans[k])
    ensures InBounds(text, spans)
    ensures forall k | 0 <= k < |spans| :: IsStripped(Texts(text, spans)[k])
  {
    forall k | 0 <= k < |spans| ensures IsStripped(Texts(text, spans)[k]) {
      var s := Texts(text, spans)[k];
      assert s[0] == text[spans[k].lo];
      assert s[|s| - 1] == text[spans[k].hi - 1];
    }
  }

  lemma RunTextsAreWords(text: string, spans: seq<Span>, isWord: char -> bool)
    requires forall k | 0 <= k < |spans| :: IsMaximalRun(text, spans[k], isWord)
    ensures InBounds(text, spans)
    ensures forall k | 0 <= k < |spans| :: |Texts(text, spans)[k]| > 0
    ensures forall k, i | 0 <= k < |spans| && 0 <= i < |Texts(text, spans)[k]| :: isWord(Texts(text, spans)[k][i])
  {
    forall k, i | 0 <= k < |spans| && 0 <= i < |Texts(text, spans)[k]| ensures isWord(Texts(text, spans)[k][i]) {
      assert Texts(text, spans)[k][i] == text[spans[k].lo + i];
    }
  }

  /** `_split_into_paragraphs`. */
  function SplitIntoParagraphs(text: string): (paragraphs: seq<string>)
    ensures forall k | 0 <= k < |paragraphs| :: IsStripped(paragraphs[k])
  {
    var spans := ParagraphSpans(text);
    TrimmedTextsAreStripped(text, spans);
    Texts(text, spans)
  }

  /** `_split_into_sentences`. */
  function SplitIntoSentences(text: string): (sentences: seq<string>)
    ensures forall k | 0 <= k < |sentences| :: IsStripped(sentences[k])
  {
    var spans := SentenceSpans(text);
    TrimmedTextsAreStripped(text, spans);
    Texts(text, spans)
  }

  /** `_split_into_words`. */
  function SplitIntoWords(text: string, isWord: char -> bool): (words: seq<string>)
    ensures forall k | 0 <= k < |words| :: |words[k]| > 0
    ensures forall k, i | 0 <= k < |words| && 0 <= i < |words[k]| :: isWord(words[k][i])
  {
    var spans := WordSpans(text, isWord);
    RunTextsAreWords(text, spans, isWord);
    Texts(text, spans)
  }

  // ---------------------------------------------------------------------
  // Properties of the splitters

  /** A span inside a span with no paragraph break stands for a string with no blank line. */
  lemma NoBlankLineInside(text: string, inner: Span, outer: Span)
    requires outer.lo <= outer.hi <= |text| && inner.lo <= inner.hi && Within(inner, outer)
    requires NoParagraphBreak(text, outer)
    ensures NoBlankLine(text[inner.lo..inner.hi])
  {
    var s := text[inner.lo..inner.hi];
    forall a, b | 0 <= a < b < |s| && s[a] == '\n' && s[b] == '\n' ensures !AllSpace(s, a, b) {
      assert !AllSpace(text, inner.lo + a, inner.lo + b);
      var m :| inner.lo + a < m < inner.lo + b && !IsSpace(text[m]);
      assert s[m - inner.lo] == text[m];
    }
  }

  /** No paragraph contains a blank line: the splitter cut at every one. */
  lemma ParagraphsHaveNoBlankLine(text: string)
    ensures forall k | 0 <= k < |SplitIntoParagraphs(text)| :: NoBlankLine(SplitIntoParagraphs(text)[k])
  {
    var pieces := ParagraphPieces(text, 0);
    var spans := ParagraphSpans(text);
    forall k | 0 <= k < |spans| ensures NoBlankLine(SplitIntoParagraphs(text)[k]) {
      var j := StrippedOrigin(text, pieces, 0, k);
      NoBlankLineInside(text, spans[k], pieces[j]);
    }
  }

  /** No whitespace-free character of the text is lost: each lies in some paragraph. */
  lemma ParagraphsCoverText(text: string, p: nat) returns (k: nat)
    requires p < |text| && !IsSpace(text[p])
    ensures k < |ParagraphSpans(text)| && ParagraphSpans(text)[k].lo <= p < ParagraphSpans(text)[k].hi
  {
    var pieces := ParagraphPieces(text, 0);
    var j := ParagraphPiecesCover(text, 0, p);
    k := StrippedKeeps(text, pieces, 0, j, p);
  }

  lemma SentenceHasNoTerminatorAt(text: string, k: nat, p: nat)
    requires k < |SentenceSpans(text)| && SentenceSpans(text)[k].lo <= p < SentenceSpans(text)[k].hi
    ensures !IsTerminator(text[p])
  {
    var pieces := SplitOnRuns(text, 0, IsTerminator);
    var j := StrippedOrigin(text, pieces, 0, k);
    assert pieces[j].lo <= p < pieces[j].hi;
  }

  /** No sentence contains a sentence terminator. */
  lemma SentencesHaveNoTerminator(text: string)
    ensures forall k, i | 0 <= k < |SplitIntoSentences(text)| && 0 <= i < |SplitIntoSentences(text)[k]| ::
      !IsTerminator(SplitIntoSentences(text)[k][i])
  {
    var spans := SentenceSpans(text);
    var sentences := SplitIntoSentences(text);
    forall k, i | 0 <= k < |sentences| && 0 <= i < |sentences[k]| ensures !IsTerminator(sentences[k][i]) {
      SentenceHasNoTerminatorAt(text, k, spans[k].lo + i);
      assert sentences[k][i] == text[spans[k].lo + i];
    }
  }

  /** Every character that is neither whitespace nor a terminator lies in some sentence. */
  lemma SentencesCoverText(text: string, p: nat) returns (k: nat)
    requires p < |text| && !IsSpace(text[p]) && !IsTerminator(text[p])
    ensures k < |SentenceSpans(text)| && SentenceSpans(text)[k].lo <= p < SentenceSpans(text)[k].hi
  {
    var pieces := SplitOnRuns(text, 0, IsTerminator);
    var j := SplitOnRunsCover(text, 0, IsTerminator, p);
    k := StrippedKeeps(text, pieces, 0, j, p);
  }

  /** A match of the separator is a blank line: two newlines with only whitespace between them. */
  lemma SeparatorIsBlankLine(text: string, a: nat, e: nat) returns (b: nat)
    requires a < |text| && SeparatorEnd(text, a) == Some(e)
    ensures a < b < e && text[a] == '\n' && text[b] == '\n' && AllSpace(text, a, b)
  {
    b := e - 1;
  }

  /** Paragraphs are cut only at blank lines: two consecutive paragraphs have one between them. */
  lemma ParagraphsAreCutAtBlankLines(text: string, k: nat) returns (a: nat, b: nat)
    requires k + 1 < |ParagraphSpans(text)|
    ensures ParagraphSpans(text)[k].hi <= a < b < ParagraphSpans(text)[k + 1].lo
    ensures text[a] == '\n' && text[b] == '\n' && AllSpace(text, a, b)
    ensures !NoParagraphBreak(text, Span(ParagraphSpans(text)[k].hi, ParagraphSpans(text)[k + 1].lo))
  {
    var pieces := ParagraphPieces(text, 0);
    var j := KeptGapsContainPieceGap(text, pieces, 0, k);
    ParagraphPiecesGap(text, 0, j);
    a := pieces[j].hi;
    b := SeparatorIsBlankLine(text, a, pieces[j + 1].lo);
  }

  /** Sentences are cut only at terminators: two consecutive sentences have one between them. */
  lemma SentencesAreCutAtTerminators(text: string, k: nat) returns (p: nat)
    requires k + 1 < |SentenceSpans(text)|
    ensures SentenceSpans(text)[k].hi <= p < SentenceSpans(text)[k + 1].lo && IsTerminator(text[p])
  {
    var pieces := SplitOnRuns(text, 0, IsTerminator);
    var j := KeptGapsContainPieceGap(text, pieces, 0, k);
    SplitOnRunsGap(text, 0, IsTerminator, j);
    p := pieces[j].hi;
  }

  /** Every word character lies in some word. */
  lemma WordsCoverText(text: string, isWord: char -> bool, p: nat) returns (k: nat)
    requires p < |text| && isWord(text[p])
    ensures k < |WordSpans(text, isWord)| && WordSpans(text, isWord)[k].lo <= p < WordSpans(text, isWord)[k].hi
  {
    k := WordRunsCover(text, 0, isWord, p);
  }

  /** When the word class excludes the terminators, no word contains one. */
  lemma WordsHaveNoTerminator(text: string, isWord: char -> bool)
    requires !isWord('.') && !isWord('!') && !isWord('?')
    ensures forall k, i | 0 <= k < |SplitIntoWords(text, isWord)| && 0 <= i < |SplitIntoWords(text, isWord)[k]| ::
      !IsTerminator(SplitIntoWords(text, isWord)[k][i])
  {
  }

  /** An empty text has no paragraphs, sentences or words. */
  lemma EmptyTextHasNoSegments(isWord: char -> bool)
    ensures SplitIntoParagraphs("") == []
    ensures SplitIntoSentences("") == []
    ensures SplitIntoWords("", isWord) == []
  {
    assert ParagraphPieces("", 0) == [Span(0, 0)];
    assert SplitOnRuns("", 0, IsTerminator) == [Span(0, 0)];
  }
}
