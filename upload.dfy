/**
 * The upload handler `upload_pdf` of the web back end, without the web
 * framework: the filename check and the loop that gives every extracted
 * word its focal letters and its sentence-end flag.
 *
 * The PDF is not read here: the handler is given the text the extractor
 * would return. The importance scores of each word are an input (one
 * `Ranking` per extracted word).
 */
module Upload {

  import opened Wrappers
  import opened CharCase
  import opened FocalModel
  import opened Segmentation

  /** One entry of the response's word list. */
  datatype WordWithFocal = WordWithFocal(word: string, focalLetters: seq<FocalLetter>, isSentenceEnd: bool)

  /** The response body: the words with their focal letters, the paragraphs and the sentences. */
  datatype TextResponse = TextResponse(words: seq<WordWithFocal>, paragraphs: seq<string>, sentences: seq<string>)

  /** An HTTP error: status code and detail message. */
  datatype HttpError = HttpError(status: int, detail: string)

  const OnlyPdf := HttpError(400, "Only PDF files are allowed")

  /** Python's `str.endswith`. */
  predicate EndsWith(s: string, suffix: string)
  {
    |suffix| <= |s| && s[|s| - |suffix|..] == suffix
  }

  /** The last four characters of s are ".pdf" in any mix of letter case. */
  predicate HasPdfExtension(s: string)
  {
    var n := |s|;
    && n >= 4
    && s[n - 4] == '.'
    && (s[n - 3] == 'p' || s[n - 3] == 'P')
    && (s[n - 2] == 'd' || s[n - 2] == 'D')
    && (s[n - 1] == 'f' || s[n - 1] == 'F')
  }

  /**
   * The filename check: the lower-cased name must end in ".pdf", otherwise
   * the request fails with status 400.
   */
  function CheckFilename(filename: string): (r: Result<string, HttpError>)
    ensures r.Success? <==> HasPdfExtension(filename)
    ensures r.Success? ==> r.value == filename
    ensures r.Failure? ==> r.error == OnlyPdf
  {
    LowerEndsWithPdf(filename);
    if EndsWith(LowerString(filename), ".pdf") then Success(filename) else Failure(OnlyPdf)
  }

  /** Lower-casing and then testing for ".pdf" accepts exactly the names with a ".pdf" extension in any case. */
  lemma LowerEndsWithPdf(s: string)
    ensures EndsWith(LowerString(s), ".pdf") <==> HasPdfExtension(s)
  {
    var l := LowerString(s);
    var n := |s|;
    if n >= 4 {
      var tail := [l[n - 4], l[n - 3], l[n - 2], l[n - 1]];
      assert l[n - 4..] == tail;
      assert tail == ".pdf" <==> l[n - 4] == '.' && l[n - 3] == 'p' && l[n - 2] == 'd' && l[n - 1] == 'f';
    }
  }

  lemma CheckFilenameExamples()
    ensures CheckFilename("Report.PDF").Success?
    ensures CheckFilename("notes.pdf").Success?
    ensures CheckFilename("notes.txt") == Failure(OnlyPdf)
    ensures CheckFilename("pdf") == Failure(OnlyPdf)
    ensures CheckFilename("") == Failure(OnlyPdf)
  {
  }

  /** `any(char in sentence_end_chars for char in word)`. */
  predicate HasTerminator(word: string)
  {
    exists j | 0 <= j < |word| :: IsTerminator(word[j])
  }

  /**
   * The per-word loop of the handler. Each word gets the focal letters of
   * its ranking; it is flagged as a sentence end when it contains '.', '!'
   * or '?', except the last word, which is never flagged.
   */
  method BuildWordsWithFocal(words: seq<string>, rankings: seq<Ranking>) returns (entries: seq<WordWithFocal>)
    requires |rankings| == |words|
    requires forall i | 0 <= i < |words| :: ValidRanking(words[i], rankings[i])
    ensures |entries| == |words|
    ensures forall i | 0 <= i < |words| :: entries[i].word == words[i]
    ensures forall i | 0 <= i < |words| :: entries[i].focalLetters == GetFocalLetters(words[i], rankings[i])
    ensures forall i | 0 <= i < |words| :: entries[i].isSentenceEnd <==> i < |words| - 1 && HasTerminator(words[i])
    ensures |words| > 0 ==> !entries[|words| - 1].isSentenceEnd
  {
    entries := [];
    var i := 0;
    while i < |words|
      invariant 0 <= i <= |words|
      invariant |entries| == i
      invariant forall k | 0 <= k < i :: entries[k] == EntryFor(words, rankings, k)
    {
      var word := words[i];
      var focalLetters := GetFocalLetters(word, rankings[i]);
      var isSentenceEnd := false;
      if i < |words| - 1 {
        isSentenceEnd := HasTerminator(word);
      }
      var entry := WordWithFocal(word, focalLetters, isSentenceEnd);
      assert entry == EntryFor(words, rankings, i);
      entries := entries + [entry];
      i := i + 1;
    }
    EntriesSayWhatTheyHold(words, rankings, entries);
  }

  /** Entries made by EntryFor carry the word, its focal letters and the sentence-end rule. */
  lemma EntriesSayWhatTheyHold(words: seq<string>, rankings: seq<Ranking>, entries: seq<WordWithFocal>)
    requires |rankings| == |words| == |entries|
    requires forall i | 0 <= i < |words| :: ValidRanking(words[i], rankings[i])
    requires forall k | 0 <= k < |words| :: entries[k] == EntryFor(words, rankings, k)
    ensures forall i | 0 <= i < |words| :: entries[i].word == words[i]
    ensures forall i | 0 <= i < |words| :: entries[i].focalLetters == GetFocalLetters(words[i], rankings[i])
    ensures forall i | 0 <= i < |words| :: entries[i].isSentenceEnd <==> i < |words| - 1 && HasTerminator(words[i])
    ensures |words| > 0 ==> !entries[|words| - 1].isSentenceEnd
  {
  }

  /** The entry the loop makes for word i. */
  function EntryFor(words: seq<string>, rankings: seq<Ranking>, i: nat): (e: WordWithFocal)
    requires |rankings| == |words| && i < |words| && ValidRanking(words[i], rankings[i])
  {
    WordWithFocal(words[i], GetFocalLetters(words[i], rankings[i]), i < |words| - 1 && HasTerminator(words[i]))
  }

  /** Words without a terminator are never flagged as sentence ends. */
  lemma NoTerminatorNoFlag(words: seq<string>, entries: seq<WordWithFocal>)
    requires |entries| == |words|
    requires forall k, i | 0 <= k < |words| && 0 <= i < |words[k]| :: !IsTerminator(words[k][i])
    requires forall i | 0 <= i < |words| :: entries[i].isSentenceEnd <==> i < |words| - 1 && HasTerminator(words[i])
    ensures forall i | 0 <= i < |entries| :: !entries[i].isSentenceEnd
  {
  }

  /**
   * `upload_pdf` on a file whose extracted text is `text`: the filename is
   * checked first; then the words, paragraphs and sentences of the text
   * are returned.
   */
  method UploadPdf(filename: string, text: string, isWord: char -> bool, rankings: seq<Ranking>)
    returns (r: Result<TextResponse, HttpError>)
    requires |rankings| == |SplitIntoWords(text, isWord)|
    requires forall i | 0 <= i < |rankings| :: ValidRanking(SplitIntoWords(text, isWord)[i], rankings[i])
    ensures CheckFilename(filename).Failure? ==> r == Failure(OnlyPdf)
    ensures CheckFilename(filename).Success? ==> r.Success?
    ensures r.Success? ==> r.value.paragraphs == SplitIntoParagraphs(text)
    ensures r.Success? ==> r.value.sentences == SplitIntoSentences(text)
    ensures r.Success? ==> |r.value.words| == |SplitIntoWords(text, isWord)|
    ensures r.Success? ==> forall i | 0 <= i < |r.value.words| ::
      && r.value.words[i].word == SplitIntoWords(text, isWord)[i]
      && r.value.words[i].focalLetters == GetFocalLetters(SplitIntoWords(text, isWord)[i], rankings[i])
    ensures r.Success? ==> forall i | 0 <= i < |r.value.words| ::
      r.value.words[i].isSentenceEnd <==> i < |r.value.words| - 1 && HasTerminator(SplitIntoWords(text, isWord)[i])
    ensures r.Success? && !isWord('.') && !isWord('!') && !isWord('?') ==>
      forall i | 0 <= i < |r.value.words| :: !r.value.words[i].isSentenceEnd
  {
    var checked := CheckFilename(filename);
    if checked.Failure? {
      return Failure(checked.error);
    }
    var words := SplitIntoWords(text, isWord);
    var entries := BuildWordsWithFocal(words, rankings);
    if !isWord('.') && !isWord('!') && !isWord('?') {
      WordsHaveNoTerminator(text, isWord);
      NoTerminatorNoFlag(words, entries);
    }
    var paragraphs := SplitIntoParagraphs(text);
    var sentences := SplitIntoSentences(text);
    r := Success(TextResponse(entries, paragraphs, sentences));
  }
}
