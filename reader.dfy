/**
 * The playback engine of the front end (`RSVPReader`), without the page.
 *
 * What the page shows is kept as three fields: the displayed word split
 * into left part, focal letter and right part, the "position / total"
 * label and the width of the progress bar in percent. The browser timer
 * is a slot holding the one pending callback, if any; `Fire` runs that
 * callback.
 */
module Reader {

  import opened CharCase
  import opened FocalModel
  import opened Upload
  import opened Wrappers

  const MinWpm := 100
  const MaxWpm := 1000
  const DefaultWpm := 300

  /** Extra milliseconds a sentence-ending word stays on screen. */
  const SentencePause: real := 500.0

  /** The word on screen: the text left of the focal letter, the focal letter, the rest. */
  datatype Display = Display(left: string, focal: string, right: string)

  /** The "position / total" label. */
  datatype Label = Label(position: int, total: int)

  /** A pending timer callback and the delay it was armed with, in milliseconds. */
  datatype Timer = Timer(delay: real)

  /** The review tab that is active: the paragraph or the sentence. */
  datatype ReviewKind = ParagraphTab | SentenceTab

  /** A review step: the index reached and the text shown for it. */
  datatype ReviewView = ReviewView(index: int, text: string)

  // ---------------------------------------------------------------------
  // Pure parts

  /** `Math.max(lo, Math.min(hi, x))`. */
  function Clamp(x: int, lo: int, hi: int): (r: int)
    ensures lo <= r
    ensures lo <= hi ==> r <= hi
    ensures lo <= x <= hi ==> r == x
    ensures x < lo ==> r == lo
    ensures lo <= hi < x ==> r == hi
  {
    var m := if hi <= x then hi else x;
    if lo >= m then lo else m
  }

  /** The focal position the word asks for: its first focal letter, else its middle. */
  function FocalHint(word: string, focalLetters: seq<FocalLetter>): int
  {
    if |focalLetters| > 0 then focalLetters[0].index else |word| / 2
  }

  /**
   * The split `displayWord` shows: the hinted focal position, clamped into
   * the word, cuts the word into left part, focal letter and right part.
   */
  function SplitWord(word: string, focalLetters: seq<FocalLetter>): (d: Display)
    ensures |word| == 0 ==> d == Display("", "", "")
    ensures |word| > 0 ==> d.left + d.focal + d.right == word && |d.focal| == 1
    ensures |word| > 0 ==> |d.left| == Clamp(FocalHint(word, focalLetters), 0, |word| - 1)
  {
    var i := Clamp(FocalHint(word, focalLetters), 0, |word| - 1);
    if |word| == 0 then
      Display("", "", "")
    else
      assert word[..i] + [word[i]] + word[i + 1..] == word;
      Display(word[..i], [word[i]], word[i + 1..])
  }

  /** A hint inside the word is followed exactly; one outside is pulled to the nearer end. */
  lemma SplitFollowsHint(word: string, focalLetters: seq<FocalLetter>)
    requires |word| > 0
    ensures |focalLetters| == 0 ==> |SplitWord(word, focalLetters).left| == |word| / 2
    ensures |focalLetters| > 0 && 0 <= focalLetters[0].index < |word| ==>
      |SplitWord(word, focalLetters).left| == focalLetters[0].index
    ensures |focalLetters| > 0 && focalLetters[0].index < 0 ==> SplitWord(word, focalLetters).left == ""
    ensures |focalLetters| > 0 && focalLetters[0].index >= |word| ==> SplitWord(word, focalLetters).right == ""
    ensures SplitWord(word, focalLetters).focal == [word[|SplitWord(word, focalLetters).left|]]
  {
    var d := SplitWord(word, focalLetters);
    assert word[|d.left|] == (d.left + d.focal + d.right)[|d.left|];
  }

  lemma SplitWordExamples()
    ensures SplitWord("cat", []) == Display("c", "a", "t")
    ensures SplitWord("a", []) == Display("", "a", "")
    ensures SplitWord("", []) == Display("", "", "")
    ensures SplitWord("reading", [FocalLetter(2, "a", 0.9)]) == Display("re", "a", "ding")
  {
    assert "cat"[..1] == "c" && "cat"[2..] == "t";
    assert "reading"[..2] == "re" && "reading"[3..] == "ding";
  }

  /**
   * With the focal letters the back end computes, the focal letter shown is
   * the back end's primary focal letter.
   */
  lemma SplitShowsPrimaryFocal(word: string, rk: Ranking)
    requires ValidRanking(word, rk) && |word| > 0
    ensures |SplitWord(word, GetFocalLetters(word, rk)).left| == GetPrimaryFocal(word, rk)
    ensures SplitWord(word, GetFocalLetters(word, rk)).focal == GetPrimaryFocalLetter(word, rk).ch
  {
    var letters := GetFocalLetters(word, rk);
    var f := GetPrimaryFocalLetter(word, rk);
    SplitFollowsHint(word, letters);
  }

  /** `adjustSpeed`: the new words-per-minute, saturating at the bounds. */
  function AdjustedWpm(wpm: int, delta: int): (r: int)
    ensures MinWpm <= r <= MaxWpm
    ensures MinWpm <= wpm + delta <= MaxWpm ==> r == wpm + delta
    ensures wpm + delta < MinWpm ==> r == MinWpm
    ensures wpm + delta > MaxWpm ==> r == MaxWpm
  {
    Clamp(wpm + delta, MinWpm, MaxWpm)
  }

  /** How long a word stays on screen, in milliseconds. */
  function DelayFor(wpm: int, isSentenceEnd: bool): (d: real)
    requires wpm > 0
    ensures d > 0.0
  {
    60000.0 / wpm as real + (if isSentenceEnd then SentencePause else 0.0)
  }

  lemma DelayExamples()
    ensures DelayFor(300, false) == 200.0
    ensures DelayFor(100, false) == 600.0
    ensures DelayFor(1000, false) == 60.0
    ensures DelayFor(300, true) == 700.0
  {
  }

  /** A sentence end adds exactly the sentence pause. */
  lemma SentenceEndAddsPause(wpm: int)
    requires wpm > 0
    ensures DelayFor(wpm, true) == DelayFor(wpm, false) + SentencePause
  {
  }

  /** A higher speed never shows a word longer. */
  lemma FasterIsShorter(slow: int, fast: int, isSentenceEnd: bool)
    requires 0 < slow <= fast
    ensures DelayFor(fast, isSentenceEnd) <= DelayFor(slow, isSentenceEnd)
  {
    var s, f := slow as real, fast as real;
    var a, b := 60000.0 / f, 60000.0 / s;
    assert a * f == 60000.0 && b * s == 60000.0;
    ScaleMonotone(a, s, f);
    CancelPositive(a, b, s);
  }

  lemma ScaleMonotone(a: real, x: real, y: real)
    requires 0.0 <= a && x <= y
    ensures a * x <= a * y
  {
    assert a * y - a * x == a * (y - x);
  }

  lemma CancelPositive(a: real, b: real, s: real)
    requires 0.0 < s && a * s <= b * s
    ensures a <= b
  {
    assert (b - a) * s == b * s - a * s;
  }

  /** The width of the progress bar, in percent. */
  function Percent(index: int, total: int): (p: real)
    requires total > 0
    ensures 0 <= index < total ==> 0.0 <= p < 100.0
    ensures p == 0.0 <==> index == 0
  {
    var p := (index as real / total as real) * 100.0;
    assert 0 <= index < total ==> p < 100.0 by {
      if 0 <= index < total {
        assert index as real / total as real < 1.0;
      }
    }
    p
  }

  // ---------------------------------------------------------------------
  // Review lookup

  /** `s.includes(w)`: w occurs in s at some position. */
  predicate IsInfix(w: string, s: string)
  {
    exists i | 0 <= i <= |s| :: OccursAt(w, s, i)
  }

  /** w occurs in s starting at position i. */
  predicate OccursAt(w: string, s: string, i: nat)
  {
    i + |w| <= |s| && s[i..i + |w|] == w
  }

  /** `item.toLowerCase().includes(word.toLowerCase())`. */
  predicate Matches(item: string, word: string)
  {
    IsInfix(LowerString(word), LowerString(item))
  }

  /** The index of the first item that contains the word, ignoring case; 0 when none does. */
  function FirstMatch(items: seq<string>, word: string, from: nat): (i: nat)
    requires from <= |items|
    ensures (exists j | from <= j < |items| :: Matches(items[j], word)) ==>
      from <= i < |items| && Matches(items[i], word) && forall j | from <= j < i :: !Matches(items[j], word)
    ensures (forall j | from <= j < |items| :: !Matches(items[j], word)) ==> i == 0
    decreases |items| - from
  {
    if from == |items| then 0
    else if Matches(items[from], word) then from
    else FirstMatch(items, word, from + 1)
  }

  /** `findParagraphIndex` / `findSentenceIndex`: the scan with early return. */
  method FindFirstContaining(items: seq<string>, word: string) returns (index: nat)
    ensures index == FirstMatch(items, word, 0)
  {
    var i := 0;
    while i < |items|
      invariant 0 <= i <= |items|
      invariant forall j | 0 <= j < i :: !Matches(items[j], word)
    {
      if Matches(items[i], word) {
        return i;
      }
      i := i + 1;
    }
    return 0;
  }

  /** The index a review step reaches, clamped to the list: 0 below the start or on an empty list, the last index past the end. */
  function StepIndex(found: int, direction: int, count: nat): (r: int)
    ensures 0 <= r
    ensures count > 0 ==> r < count
    ensures 0 <= found + direction < count ==> r == found + direction
    ensures found + direction < 0 || count == 0 ==> r == 0
    ensures count > 0 && found + direction >= count ==> r == count - 1
  {
    Clamp(found + direction, 0, count - 1)
  }

  /** `items[i]` as the page shows it: an index past the end shows nothing. */
  function ItemText(items: seq<string>, i: int): string
  {
    if 0 <= i < |items| then items[i] else ""
  }

  /** `items[i] || fallback`: a missing or empty item shows the fallback text. */
  function ItemOr(items: seq<string>, i: int, fallback: string): (t: string)
    ensures 0 <= i < |items| && items[i] != "" ==> t == items[i]
    ensures !(0 <= i < |items| && items[i] != "") ==> t == fallback
  {
    if 0 <= i < |items| && items[i] != "" then items[i] else fallback
  }

  // ---------------------------------------------------------------------
  // The engine

  class RsvpReader {
    var words: seq<WordWithFocal>
    var paragraphs: seq<string>
    var sentences: seq<string>
    var currentIndex: int
    var isPlaying: bool
    var wpm: int
    var timer: Option<Timer>
    var currentWordIndex: int
    var sentenceEndIndex: int
    var display: Display
    var positionLabel: Label
    var progress: real

    /**
     * A timer is pending exactly while playing; while a document is loaded
     * the index stays within it, and while playing it points at a word.
     * After `goBack` the index is kept while the words are dropped, so the
     * bounds only hold while there are words.
     */
    predicate Valid()
      reads this
    {
      && MinWpm <= wpm <= MaxWpm
      && (isPlaying <==> timer.Some?)
      && 0 <= currentIndex
      && (|words| > 0 ==> currentIndex <= |words|)
      && (isPlaying && |words| > 0 ==> currentIndex < |words|)
      && 0 <= currentWordIndex
      && (|words| > 0 ==> currentWordIndex < |words|)
      && 0.0 <= progress < 100.0
    }

    /** The loaded document and the speed are as before. */
    twostate predicate DocumentKept()
      reads this
    {
      words == old(words) && paragraphs == old(paragraphs) && sentences == old(sentences) && wpm == old(wpm)
    }

    /** What is on screen, and the indices recorded for it, are as before. */
    twostate predicate ScreenKept()
      reads this
    {
      && display == old(display) && positionLabel == old(positionLabel) && progress == old(progress)
      && currentWordIndex == old(currentWordIndex) && sentenceEndIndex == old(sentenceEndIndex)
    }

    /** Word i is on screen: its split, its label and progress, and the indices that record it. */
    twostate predicate Showing(i: int)
      reads this
    {
      && 0 <= i < |words|
      && display == SplitWord(words[i].word, words[i].focalLetters)
      && positionLabel == Label(i + 1, |words|)
      && progress == Percent(i, |words|)
      && currentWordIndex == i
      && sentenceEndIndex == (if words[i].isSentenceEnd then i else old(sentenceEndIndex))
    }

    /** The timer is pending with the delay word i stays on screen for. */
    predicate ArmedFor(i: int)
      reads this
    {
      0 <= i < |words| && wpm > 0 && timer == Some(Timer(DelayFor(wpm, words[i].isSentenceEnd)))
    }

    /** The result of `pause` on the old state. */
    twostate predicate PausedFromOld()
      reads this
    {
      && !isPlaying && timer == None
      && currentIndex == old(currentIndex)
      && DocumentKept() && ScreenKept()
    }

    /** The result of `play` on the old state. */
    twostate predicate PlayedFromOld()
      reads this
    {
      && DocumentKept()
      && (|old(words)| == 0 ==>
            && currentIndex == old(currentIndex) && isPlaying == old(isPlaying) && timer == old(timer)
            && ScreenKept())
      && (|old(words)| > 0 ==>
            && currentIndex == (if old(currentIndex) >= |old(words)| then 0 else old(currentIndex))
            && isPlaying
            && Showing(currentIndex)
            && ArmedFor(currentIndex))
    }

    /** The page before any document: nothing shown, "0 / 0", an empty bar. */
    constructor()
      ensures Valid()
      ensures words == [] && paragraphs == [] && sentences == []
      ensures currentIndex == 0 && !isPlaying && wpm == DefaultWpm && timer == None
      ensures currentWordIndex == 0 && sentenceEndIndex == -1
      ensures display == Display("", "", "") && positionLabel == Label(0, 0) && progress == 0.0
    {
      words := [];
      paragraphs := [];
      sentences := [];
      currentIndex := 0;
      isPlaying := false;
      wpm := DefaultWpm;
      timer := None;
      currentWordIndex := 0;
      sentenceEndIndex := -1;
      display := Display("", "", "");
      positionLabel := Label(0, 0);
      progress := 0.0;
    }

    /** `displayWord`: shows the word and labels it with the current index. */
    method DisplayWord(w: WordWithFocal)
      modifies this
      ensures display == SplitWord(w.word, w.focalLetters)
      ensures positionLabel == Label(currentIndex + 1, |words|)
      ensures DocumentKept() && currentIndex == old(currentIndex)
      ensures isPlaying == old(isPlaying) && timer == old(timer)
      ensures progress == old(progress)
      ensures currentWordIndex == old(currentWordIndex) && sentenceEndIndex == old(sentenceEndIndex)
    {
      display := SplitWord(w.word, w.focalLetters);
      positionLabel := Label(currentIndex + 1, |words|);
    }

    /** `updateProgress`: the bar shows the current index as a share of the words, if there are any. */
    method UpdateProgress()
      modifies this
      ensures progress == (if |words| > 0 then Percent(currentIndex, |words|) else old(progress))
      ensures DocumentKept() && currentIndex == old(currentIndex)
      ensures isPlaying == old(isPlaying) && timer == old(timer)
      ensures display == old(display) && positionLabel == old(positionLabel)
      ensures currentWordIndex == old(currentWordIndex) && sentenceEndIndex == old(sentenceEndIndex)
    {
      if |words| > 0 {
        progress := Percent(currentIndex, |words|);
      }
    }

    /** `loadData`: installs the document and shows its first word; a pending timer is not cancelled. */
    method LoadData(data: TextResponse)
      requires Valid()
      modifies this
      ensures Valid()
      ensures words == data.words && paragraphs == data.paragraphs && sentences == data.sentences
      ensures currentIndex == 0 && currentWordIndex == 0 && sentenceEndIndex == -1
      ensures wpm == old(wpm) && isPlaying == old(isPlaying) && timer == old(timer)
      ensures |words| > 0 ==>
        && display == SplitWord(words[0].word, words[0].focalLetters)
        && positionLabel == Label(1, |words|)
        && progress == 0.0
      ensures |words| == 0 ==> display == old(display) && positionLabel == old(positionLabel) && progress == old(progress)
    {
      words := data.words;
      paragraphs := data.paragraphs;
      sentences := data.sentences;
      currentIndex := 0;
      currentWordIndex := 0;
      sentenceEndIndex := -1;
      if |words| > 0 {
        DisplayWord(words[0]);
        positionLabel := Label(1, |words|);
      }
      UpdateProgress();
    }

    /** `pause`: stops playback and cancels the pending timer; nothing else changes. */
    method Pause()
      requires Valid()
      modifies this
      ensures Valid()
      ensures PausedFromOld()
    {
      isPlaying := false;
      if timer.Some? {
        timer := None;
      }
    }

    /**
     * `displayNextWord`: at the end of the words playback stops; otherwise
     * the current word is shown and, while playing, the timer is armed
     * with its delay.
     */
    method DisplayNextWord()
      requires MinWpm <= wpm <= MaxWpm && 0 <= currentIndex && 0.0 <= progress < 100.0
      modifies this
      ensures DocumentKept() && currentIndex == old(currentIndex)
      ensures currentIndex >= |words| ==> PausedFromOld()
      ensures currentIndex < |words| ==>
        && Showing(currentIndex)
        && isPlaying == old(isPlaying)
        && (if isPlaying then ArmedFor(currentIndex) else timer == old(timer))
    {
      if currentIndex >= |words| {
        isPlaying := false;
        timer := None;
        return;
      }
      var wordData := words[currentIndex];
      DisplayWord(wordData);
      currentWordIndex := currentIndex;
      var delay := 60000.0 / wpm as real;
      if wordData.isSentenceEnd {
        sentenceEndIndex := currentIndex;
        delay := delay + SentencePause;
      }
      UpdateProgress();
      if isPlaying {
        timer := Some(Timer(delay));
      }
    }

    /**
     * `play`, as `togglePlayPause` calls it (only while paused): nothing
     * happens without words; otherwise playback restarts from the first
     * word if it had reached the end, and the current word is shown.
     */
    method Play()
      requires Valid() && !isPlaying
      modifies this
      ensures Valid()
      ensures PlayedFromOld()
    {
      if |words| == 0 {
        return;
      }
      if currentIndex >= |words| {
        currentIndex := 0;
      }
      isPlaying := true;
      DisplayNextWord();
    }

    /** `togglePlayPause`. */
    method TogglePlayPause()
      requires Valid()
      modifies this
      ensures Valid()
      ensures old(isPlaying) ==> PausedFromOld()
      ensures !old(isPlaying) ==> PlayedFromOld()
    {
      if isPlaying {
        Pause();
      } else {
        Play();
      }
    }

    /**
     * The pending timer fires: with no timer pending nothing happens;
     * otherwise the index moves on by one and the next word is shown, or
     * playback stops at the end.
     */
    method Fire()
      requires Valid()
      modifies this
      ensures Valid()
      ensures old(timer).None? ==> unchanged(this)
      ensures old(timer).Some? ==>
        && DocumentKept()
        && currentIndex == old(currentIndex) + 1
        && (currentIndex < |words| ==> isPlaying && Showing(currentIndex) && ArmedFor(currentIndex))
        && (currentIndex >= |words| ==> !isPlaying && timer == None && ScreenKept())
    {
      if timer.None? {
        return;
      }
      timer := None;
      currentIndex := currentIndex + 1;
      DisplayNextWord();
    }

    /** `adjustSpeed`: only the speed changes; a pending timer keeps its delay. */
    method AdjustSpeed(delta: int)
      requires Valid()
      modifies this
      ensures Valid()
      ensures wpm == AdjustedWpm(old(wpm), delta)
      ensures words == old(words) && paragraphs == old(paragraphs) && sentences == old(sentences)
      ensures currentIndex == old(currentIndex) && isPlaying == old(isPlaying) && timer == old(timer)
      ensures ScreenKept()
    {
      wpm := AdjustedWpm(wpm, delta);
    }

    /** `reset`: stops playback and goes back to the first word, or to an empty screen without words. */
    method Reset()
      requires Valid()
      modifies this
      ensures Valid()
      ensures DocumentKept()
      ensures !isPlaying && timer == None
      ensures currentIndex == 0 && currentWordIndex == 0 && sentenceEndIndex == -1
      ensures |words| > 0 ==>
        && display == SplitWord(words[0].word, words[0].focalLetters)
        && positionLabel == Label(1, |words|)
        && progress == 0.0
      ensures |words| == 0 ==> display == Display("", "", "") && positionLabel == Label(0, 0) && progress == old(progress)
    {
      Pause();
      currentIndex := 0;
      currentWordIndex := 0;
      sentenceEndIndex := -1;
      UpdateProgress();
      if |words| > 0 {
        DisplayWord(words[0]);
        positionLabel := Label(1, |words|);
      } else {
        display := Display("", "", "");
        positionLabel := Label(0, 0);
      }
    }

    /** `goBack`: stops playback and drops the document; the indices and the screen are kept. */
    method GoBack()
      requires Valid()
      modifies this
      ensures Valid()
      ensures words == [] && paragraphs == [] && sentences == []
      ensures !isPlaying && timer == None
      ensures wpm == old(wpm) && currentIndex == old(currentIndex) && ScreenKept()
    {
      Pause();
      words := [];
      paragraphs := [];
      sentences := [];
    }

    /** `findParagraphIndex`. */
    method FindParagraphIndex(word: string) returns (index: nat)
      ensures index == FirstMatch(paragraphs, word, 0)
    {
      index := FindFirstContaining(paragraphs, word);
    }

    /** `findSentenceIndex`. */
    method FindSentenceIndex(word: string) returns (index: nat)
      ensures index == FirstMatch(sentences, word, 0)
    {
      index := FindFirstContaining(sentences, word);
    }

    /**
     * `navigateReview`: from the first paragraph or sentence containing the
     * current word, one step in the given direction, clamped to the list.
     * Without a current word the source fails with a TypeError: `None`.
     */
    method NavigateReview(kind: ReviewKind, direction: int) returns (view: Option<ReviewView>)
      requires Valid()
      ensures |words| == 0 <==> view.None?
      ensures view.Some? ==>
        var items := if kind == ParagraphTab then paragraphs else sentences;
        && view.value.index == StepIndex(FirstMatch(items, words[currentWordIndex].word, 0), direction, |items|)
        && view.value.text == ItemText(items, view.value.index)
    {
      if |words| == 0 {
        return None;
      }
      var word := words[currentWordIndex].word;
      if kind == ParagraphTab {
        var found := FindParagraphIndex(word);
        var i := StepIndex(found, direction, |paragraphs|);
        view := Some(ReviewView(i, ItemText(paragraphs, i)));
      } else {
        var found := FindSentenceIndex(word);
        var i := StepIndex(found, direction, |sentences|);
        view := Some(ReviewView(i, ItemText(sentences, i)));
      }
    }

    /**
     * `openReview`: pauses, then finds the paragraph and the sentence of the
     * current word, with fallback texts; without a current word nothing is
     * looked up.
     */
    method OpenReview() returns (content: Option<(string, string)>)
      requires Valid()
      modifies this
      ensures Valid()
      ensures PausedFromOld()
      ensures |words| == 0 <==> content.None?
      ensures content.Some? ==>
        var word := words[currentWordIndex].word;
        content.value == (ItemOr(paragraphs, FirstMatch(paragraphs, word, 0), "No paragraph found"),
                          ItemOr(sentences, FirstMatch(sentences, word, 0), "No sentence found"))
    {
      Pause();
      if |words| == 0 {
        return None;
      }
      var word := words[currentWordIndex].word;
      var p := FindParagraphIndex(word);
      var s := FindSentenceIndex(word);
      content := Some((ItemOr(paragraphs, p, "No paragraph found"), ItemOr(sentences, s, "No sentence found")));
    }
  }

  // ---------------------------------------------------------------------
  // Scenarios

  /**
   * Three words, the second one ending a sentence: after two timer firings
   * the third word is current, and the delay before it was the base delay
   * plus the sentence pause.
   */
  method SentencePauseScenario(w0: WordWithFocal, w1: WordWithFocal, w2: WordWithFocal)
    returns (index: int, delayBeforeThird: real)
    requires !w0.isSentenceEnd && w1.isSentenceEnd
    ensures index == 2
    ensures delayBeforeThird == DelayFor(DefaultWpm, false) + SentencePause == 700.0
  {
    var r := new RsvpReader();
    r.LoadData(TextResponse([w0, w1, w2], [], []));
    r.TogglePlayPause();
    r.Fire();
    delayBeforeThird := r.timer.value.delay;
    r.Fire();
    index := r.currentIndex;
  }

  /** A pause before the timer fires leaves nothing for the firing to do. */
  method PauseCancelsAdvance(data: TextResponse) returns (index: int, playing: bool)
    requires |data.words| > 0
    ensures index == 0 && !playing
  {
    var r := new RsvpReader();
    r.LoadData(data);
    r.TogglePlayPause();
    r.TogglePlayPause();
    r.Fire();
    index := r.currentIndex;
    playing := r.isPlaying;
  }

  /** Once the last word has been shown, `reset` goes back to the first word. */
  method ResetAfterEnd(w: WordWithFocal) returns (index: int, shown: Display)
    ensures index == 0 && shown == SplitWord(w.word, w.focalLetters)
  {
    var r := new RsvpReader();
    r.LoadData(TextResponse([w], [], []));
    r.TogglePlayPause();
    r.Fire();
    r.Reset();
    index := r.currentIndex;
    shown := r.display;
  }

  /**
   * Loading a document without words during playback keeps the old timer;
   * when it fires, the index moves past the (empty) document, which is why
   * the index bounds of `Valid` only hold while there are words.
   */
  method LoadEmptyWhilePlaying(w: WordWithFocal) returns (index: int, count: int)
    ensures index == 1 && count == 0
  {
    var r := new RsvpReader();
    r.LoadData(TextResponse([w, w], [], []));
    r.TogglePlayPause();
    r.LoadData(TextResponse([], [], []));
    r.Fire();
    index := r.currentIndex;
    count := |r.words|;
  }
}
