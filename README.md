# RSVP reader: a Dafny model

The system is a speed reader. It uses Rapid Serial Visual Presentation (RSVP): a PDF is uploaded and the back end extracts its text. The text is split into paragraphs, sentences and words, and each word gets its focal letters, the letters an eye should fix on. The front end then flashes the words one at a time at a chosen speed. Each word is shown with its primary focal letter marked, and a sentence-ending word stays on screen longer. A review panel finds the paragraph or the sentence that holds the current word.

The model has six modules:

- `Wrappers` (`wrappers.dfy`): `Option` and `Result`.
- `CharCase` (`char_case.dfy`): lower-casing of characters and strings.
- `FocalModel` (`focal_model.dfy`): focal-letter selection (`backend/focal_model.py`). The importance score of a character is a floating-point formula in the source. Here a word's scores and the ascending `argsort` order of them are an input, a `Ranking`, constrained only by what `argsort` guarantees. Everything the source then does with them is modelled exactly:
  - how many letters are chosen;
  - which positions are chosen;
  - their order;
  - their weights;
  - the primary letter.
- `Segmentation` (`segmentation.dfy`): the three text splitters of `backend/pdf_extractor.py`. They are modelled as the regular-expression engine runs them, on spans (position ranges) of the text. The word-character class `\w` is a predicate `isWord` given by the caller. Whitespace is the exact set of characters Python's `str.isspace` accepts.
- `Upload` (`upload.dfy`): the `/upload-pdf` handler of `backend/main.py`, without the web framework. It covers the filename check and the loop that attaches focal letters and sentence-end flags to the words.
- `Reader` (`reader.dfy`): the playback engine `RSVPReader` of `frontend/static/app.js`.
  - It is a class with the source's fields. The page's output is three fields: the split word on screen, the "position / total" label and the progress-bar width.
  - The browser timer is a slot `timer: Option<Timer>` holding the one pending callback. The method `Fire` runs that callback.
  - The class invariant `Valid()` has these clauses:
    - the speed stays within 100–1000 words per minute;
    - a timer is pending exactly while playing;
    - `currentIndex` and `currentWordIndex` are never negative;
    - while there are words, `currentIndex` is at most their number and `currentWordIndex` is inside them;
    - while playing with words, `currentIndex` points at a word;
    - the progress bar stays in [0, 100).
  - Four scenario methods at the end of the file run command sequences on a fresh reader:
    - `SentencePauseScenario`: three words, the second ending a sentence, played through two timer firings;
    - `PauseCancelsAdvance`: play, then pause, then a firing;
    - `ResetAfterEnd`: a one-word document played to its end, then reset;
    - `LoadEmptyWhilePlaying`: an empty document loaded during playback, then a firing.

### Notes on the source

- `goBack` empties the words but keeps `currentIndex`. `loadData` does not cancel a pending timer, so loading an empty document during playback lets the old timer fire and move `currentIndex` to 1. The index bounds in `Valid()` are therefore guarded by "there are words" (`Reader.LoadEmptyWhilePlaying` exhibits the second case).
- At the end of the words, `displayNextWord` pauses before `updateProgress`. The progress bar therefore never reaches 100%, and `Valid()` keeps `progress < 100`.
- The timer callback increments the index first and only then checks for the end. After the last word the index equals the number of words and playback has stopped. A later `play` restarts from 0.
- The callback does not check `isPlaying`. A pause cannot be overtaken by a stale callback only because `pause` clears the slot. In the model, `Fire` on an empty slot changes nothing, and `Reader.PauseCancelsAdvance` shows the pause winning.
- The sentence pause of 500 ms is added to the delay armed after a sentence-ending word is shown, which is the delay before the next word.
- Progress is a percentage (0–100), not a fraction in [0, 1].
- The delay and the progress are exact reals here. JavaScript uses doubles.
- `calculate_ovp` computes `int(n * 0.35)`, `int(n * 0.37)` and `int(n * 0.40)` in floating point. The model uses the exact integer quotients `n * 35 / 100`, `n * 37 / 100` and `n * 40 / 100`. They agree wherever the double product cannot fall just below an integer the exact product reaches:
  - for 0.35 and 0.37 the exact product is never an integer in their length ranges (4–5 and 6–8);
  - the double nearest 0.4 lies slightly above 0.4.
- With Python's `\w`, which does not accept '.', '!' or '?', no uploaded word is ever flagged as a sentence end. `Segmentation.WordsHaveNoTerminator` together with the last `ensures` of `Upload.UploadPdf` states this (`backend/pdf_extractor.py:77`, `backend/main.py:70`). The 500 ms sentence pause of `frontend/static/app.js:196-198` therefore never happens for an uploaded PDF.
- The `[::-1]` reversal in `identify_focal_letters` is followed by `sorted`, so it cannot change the result and is not written out.

## Model

| member | source | states |
|---|---|---|
| CharCase.Lower | frontend/static/app.js:313 | Upper-case ASCII letters map to their lower-case letter; every other character is unchanged |
| CharCase.LowerString | frontend/static/app.js:313 | The lower-cased string has the same length and each character lower-cased |
| FocalModel.CalculateOvp | backend/focal_model.py:21-33 | The optimal viewing position of a non-empty word lies inside the word |
| FocalModel.OvpTable | backend/focal_model.py:26-33 | The viewing position is n/2 up to length 3, 1 for lengths 4–5, 2 for 6–8, and floor(2n/5) from 9 on |
| FocalModel.NumFocal | backend/focal_model.py:95-100 | Between one and three letters are chosen, and never more than the word has |
| FocalModel.NumFocalTable | backend/focal_model.py:95-100 | One letter up to length 5, two for lengths 6–11, three from 12 on |
| FocalModel.Insert | backend/focal_model.py:104 | Inserting into a sorted list keeps it sorted; the result holds one more copy of the new element |
| FocalModel.SortAscending | backend/focal_model.py:104 | `sorted` returns an ascending permutation of its input |
| FocalModel.SortedDistinctIsStrict | backend/focal_model.py:103-104 | Sorting distinct positions gives a strictly increasing list |
| FocalModel.TopOfOrder | backend/focal_model.py:103 | `argsort(scores)[-k:]` holds k distinct positions of the word, where k is the focal count |
| FocalModel.ChosenPositions | backend/focal_model.py:103-104 | The chosen positions are the top-ranked ones, sorted strictly increasing, all inside the word |
| FocalModel.IdentifyFocalLetters | backend/focal_model.py:69-108 | Empty word: no letters. One-letter word: position 0 with weight 1.0. Otherwise focal-count positions, strictly increasing, each with its own score as weight |
| FocalModel.FocalLettersAreTopScored | backend/focal_model.py:103-106 | No position left out scores higher than any chosen position |
| FocalModel.ChosenRank | backend/focal_model.py:103 | A chosen position is one of the last k entries of the argsort order |
| FocalModel.LeftOutRank | backend/focal_model.py:103 | A position not chosen is one of the entries before the last k of the order |
| FocalModel.GetPrimaryFocal | backend/focal_model.py:110-117 | The primary position is 0 for an empty word; otherwise it is a chosen position inside the word and the smallest of them |
| FocalModel.PrimaryIsLeftmostNotBest | backend/focal_model.py:103-116 | In "stream" with best score at 4 and second best at 1, positions [1, 4] are chosen and the primary is 1, the lower-scored one |
| FocalModel.ExampleChosen | backend/focal_model.py:103-104 | For that ranking the chosen positions are [1, 4] |
| FocalModel.ExampleRankingIsValid | backend/focal_model.py:103 | That ranking is a valid ascending argsort of its scores |
| FocalModel.SortTwo | backend/focal_model.py:104 | Sorting an already ordered pair leaves it unchanged |
| FocalModel.GetFocalLetters | backend/focal_model.py:124-140 | One entry per chosen position, in order, carrying that position, the one-character string at it and its weight; none for the empty word |
| FocalModel.GetPrimaryFocalLetter | backend/focal_model.py:142-155 | Empty word: index 0, empty character, weight 0.0. Otherwise the first focal letter, which sits at the primary position and carries the word's character there |
| Segmentation.FindIn | backend/pdf_extractor.py:69 | The first position in a range where a character test gives the wanted answer, or the range end |
| Segmentation.FindInSkips | backend/pdf_extractor.py:69 | The scan passes every position before the first wanted one |
| Segmentation.TrimEnd | backend/pdf_extractor.py:70 | Only whitespace follows the end found, and the character before it is not whitespace |
| Segmentation.Strip | backend/pdf_extractor.py:70 | `strip()` removes exactly the leading and trailing whitespace of a piece |
| Segmentation.StripAndDropEmpty | backend/pdf_extractor.py:70 | The stripped, non-empty pieces stay in text order, and none starts or ends with whitespace |
| Segmentation.StrippedOrigin | backend/pdf_extractor.py:70 | Every kept piece is the stripped form of a piece of the split |
| Segmentation.KeptHead | backend/pdf_extractor.py:70 | A first piece that is not blank is kept first, stripped |
| Segmentation.KeptTail | backend/pdf_extractor.py:70 | Every other kept span is kept from the remaining pieces |
| Segmentation.StrippedKeeps | backend/pdf_extractor.py:70 | A non-whitespace character of a piece survives stripping and filtering |
| Segmentation.GapBetweenOrigins | backend/pdf_extractor.py:70 | Two non-empty stripped pieces, the first before the second: some piece ends after the first and the next piece starts before the second |
| Segmentation.KeptGapsContainPieceGap | backend/pdf_extractor.py:70 | Between two consecutive kept spans lies the gap between two consecutive pieces of the split |
| Segmentation.LastNewline | backend/pdf_extractor.py:69 | The position after the last newline of a range, or none when the range has no newline |
| Segmentation.SeparatorEnd | backend/pdf_extractor.py:69 | Where a match of `\n\s*\n` starting at a position ends: all whitespace and ending in a newline. The match is greedy: no later newline is reached through whitespace only. There is no match when no later newline follows a whitespace-only gap |
| Segmentation.FindSeparator | backend/pdf_extractor.py:69 | The first position from which the paragraph separator matches, or the text end |
| Segmentation.NoBreakBeforeSeparator | backend/pdf_extractor.py:69 | The text before the first separator holds no blank line |
| Segmentation.ParagraphPieces | backend/pdf_extractor.py:69 | The pieces `re.split(r'\n\s*\n', ...)` returns are in order, inside the text, and contain no blank line |
| Segmentation.ParagraphPiecesGap | backend/pdf_extractor.py:69 | Consecutive pieces are cut at exactly one match of the separator: a match starts where one piece ends and ends where the next starts |
| Segmentation.SeparatorIsBlankLine | backend/pdf_extractor.py:69 | A match of the separator is a blank line: two newlines with only whitespace between them |
| Segmentation.ParagraphPiecesCover | backend/pdf_extractor.py:69 | Every non-whitespace character lies in a piece, so separators consume only whitespace |
| Segmentation.SplitOnRuns | backend/pdf_extractor.py:73 | The pieces `re.split(r'[.!?]+', ...)` returns are in order and hold no separator character |
| Segmentation.SplitOnRunsCover | backend/pdf_extractor.py:73 | Every character outside the separator class lies in a piece |
| Segmentation.SplitOnRunsGap | backend/pdf_extractor.py:73 | Consecutive pieces are cut at a non-empty run of separator characters filling the whole gap between them |
| Segmentation.WordRuns | backend/pdf_extractor.py:77 | `re.findall(r'\b\w+\b', ...)` finds, in order, runs of word characters that cannot be extended either way |
| Segmentation.WordRunsCover | backend/pdf_extractor.py:77 | Every word character lies in a found run |
| Segmentation.Texts | backend/pdf_extractor.py:70 | The strings of the spans are the text's slices at those spans |
| Segmentation.ParagraphSpans | backend/pdf_extractor.py:68-70 | The paragraph spans are in order and each is non-empty with no whitespace at either end |
| Segmentation.SentenceSpans | backend/pdf_extractor.py:72-74 | The sentence spans are in order and each is non-empty with no whitespace at either end |
| Segmentation.WordSpans | backend/pdf_extractor.py:76-78 | The word spans are in order and each is a maximal run of word characters |
| Segmentation.TrimmedTextsAreStripped | backend/pdf_extractor.py:70 | Trimmed spans stand for non-empty strings without surrounding whitespace |
| Segmentation.RunTextsAreWords | backend/pdf_extractor.py:77 | Run spans stand for non-empty strings of word characters |
| Segmentation.SplitIntoParagraphs | backend/pdf_extractor.py:68-70 | Every paragraph is non-empty and stripped |
| Segmentation.SplitIntoSentences | backend/pdf_extractor.py:72-74 | Every sentence is non-empty and stripped |
| Segmentation.SplitIntoWords | backend/pdf_extractor.py:76-78 | Every word is non-empty and made of word characters only |
| Segmentation.NoBlankLineInside | backend/pdf_extractor.py:69 | Part of a piece without a paragraph break has no blank line |
| Segmentation.ParagraphsHaveNoBlankLine | backend/pdf_extractor.py:68-70 | No paragraph contains a blank line |
| Segmentation.ParagraphsCoverText | backend/pdf_extractor.py:68-70 | Every non-whitespace character of the text lies in some paragraph |
| Segmentation.ParagraphsAreCutAtBlankLines | backend/pdf_extractor.py:68-70 | Between two consecutive paragraphs lies a blank line: two newlines with only whitespace between them |
| Segmentation.SentenceHasNoTerminatorAt | backend/pdf_extractor.py:73 | No position of a sentence span holds '.', '!' or '?' |
| Segmentation.SentencesHaveNoTerminator | backend/pdf_extractor.py:72-74 | No sentence contains '.', '!' or '?' |
| Segmentation.SentencesCoverText | backend/pdf_extractor.py:72-74 | Every character that is neither whitespace nor a terminator lies in some sentence |
| Segmentation.SentencesAreCutAtTerminators | backend/pdf_extractor.py:72-74 | Between two consecutive sentences lies a '.', '!' or '?' |
| Segmentation.WordsCoverText | backend/pdf_extractor.py:76-78 | Every word character of the text lies in some word |
| Segmentation.WordsHaveNoTerminator | backend/pdf_extractor.py:76-78 | When the word class excludes '.', '!' and '?', no word contains them |
| Segmentation.EmptyTextHasNoSegments | backend/pdf_extractor.py:57-59 | An empty text has no paragraphs, sentences or words |
| Segmentation.OrderedBounds | backend/pdf_extractor.py:69 | Ordered spans lie within their bounds |
| Segmentation.OrderedBefore | backend/pdf_extractor.py:69 | In ordered spans each span ends before any later one starts |
| Segmentation.OrderedWeaken | backend/pdf_extractor.py:69 | Ordered spans stay ordered under a smaller lower bound |
| Upload.CheckFilename | backend/main.py:54-55 | A name is accepted exactly when it ends in ".pdf" in any letter case, and the name is passed on; otherwise status 400 "Only PDF files are allowed" |
| Upload.LowerEndsWithPdf | backend/main.py:54 | Lower-casing and testing for ".pdf" is the case-insensitive ".pdf" test |
| Upload.CheckFilenameExamples | backend/main.py:54-55 | "Report.PDF" and "notes.pdf" pass; "notes.txt", "pdf" and "" are refused with 400 |
| Upload.BuildWordsWithFocal | backend/main.py:61-76 | One entry per word, in order, with the word and its focal letters. A word other than the last is flagged as a sentence end exactly when it contains '.', '!' or '?'; the last is never flagged |
| Upload.NoTerminatorNoFlag | backend/main.py:67-70 | Words without terminators are never flagged |
| Upload.UploadPdf | backend/main.py:52-82 | A bad name fails with 400 before anything else. Otherwise the response carries the extracted paragraphs and sentences and one entry per extracted word with its focal letters. An entry is flagged exactly when its word holds '.', '!' or '?' and is not the last; no entry is flagged when the word class excludes the terminators |
| Reader.Clamp | frontend/static/app.js:227 | `Math.max(lo, Math.min(hi, x))` lies in [lo, hi], keeps a value inside, and pulls one outside to the nearer bound |
| Reader.SplitWord | frontend/static/app.js:212-232 | An empty word shows three empty parts. Otherwise the three parts join back to the word, the focal part is one character, and the left part's length is the clamped hint |
| Reader.SplitFollowsHint | frontend/static/app.js:219-232 | Without focal letters the middle is marked. A hint inside the word is followed; one before it leaves no left part, one past it no right part. The focal part is the character at the split |
| Reader.SplitWordExamples | frontend/static/app.js:219-232 | "cat" splits as c/a/t, "a" as ""/a/"", "" as three empty parts, "reading" with hint 2 as re/a/ding |
| Reader.SplitShowsPrimaryFocal | frontend/static/app.js:219-232 | With the back end's focal letters, the marked letter is the back end's primary focal letter at the primary position |
| Reader.AdjustedWpm | frontend/static/app.js:245-246 | The new speed stays in 100–1000, equals the requested one inside, and saturates outside |
| Reader.DelayFor | frontend/static/app.js:194-200 | The delay before the next word is positive |
| Reader.DelayExamples | frontend/static/app.js:194-200 | 200 ms at 300 wpm, 600 at 100, 60 at 1000, 700 at 300 after a sentence end |
| Reader.SentenceEndAddsPause | frontend/static/app.js:196-198 | A sentence end adds exactly 500 ms |
| Reader.FasterIsShorter | frontend/static/app.js:194 | A higher speed never gives a longer delay |
| Reader.Percent | frontend/static/app.js:281-285 | For an index inside the words the bar is in [0, 100), and it is 0 exactly at the first word |
| Reader.FirstMatch | frontend/static/app.js:311-318 | The first item containing the word, ignoring case, with no earlier item containing it; 0 when none does |
| Reader.FindFirstContaining | frontend/static/app.js:311-318 | The scan with early return computes the first case-insensitive match, or 0 |
| Reader.StepIndex | frontend/static/app.js:332 | A review step is exact when the target is inside the list. Below the start, or on an empty list, it gives 0. Past the end of a non-empty list it gives the last index |
| Reader.ItemOr | frontend/static/app.js:307-308 | The item is shown when present and non-empty; in every other case, exactly the fallback text |
| Reader.RsvpReader.constructor | frontend/static/app.js:1-12 | No document, index 0, paused, 300 wpm, no timer, both indices reset. The empty screen, the "0 / 0" label and the empty bar are assumed starting values of the page |
| Reader.RsvpReader.DisplayWord | frontend/static/app.js:212-243 | The word's split is on screen and labelled with the current index; nothing else changes |
| Reader.RsvpReader.UpdateProgress | frontend/static/app.js:281-286 | The bar shows the current index as a percentage of the words when there are any; nothing else changes |
| Reader.RsvpReader.LoadData | frontend/static/app.js:127-144 | The document is installed with every index reset. When it has words the first word is shown as "1 / n" with an empty bar. Speed, playing state and the pending timer are kept |
| Reader.RsvpReader.Pause | frontend/static/app.js:171-179 | Playback stops and the timer is cleared; the document, index and screen are kept |
| Reader.RsvpReader.DisplayNextWord | frontend/static/app.js:181-210 | Past the last word playback stops. Otherwise the current word is shown with label, progress and sentence-end index, and while playing the timer is armed with that word's delay |
| Reader.RsvpReader.Play | frontend/static/app.js:155-169 | Without words nothing happens. Otherwise playback restarts from 0 if it had ended, the current word is shown and the timer is armed for it |
| Reader.RsvpReader.TogglePlayPause | frontend/static/app.js:146-153 | Pauses when playing and plays when paused |
| Reader.RsvpReader.Fire | frontend/static/app.js:204-209 | With no pending timer nothing changes. Otherwise the index moves on by one and the next word is shown with the timer re-armed, or playback stops past the end |
| Reader.RsvpReader.AdjustSpeed | frontend/static/app.js:245-249 | Only the speed changes, to the saturated sum; a pending timer keeps its delay |
| Reader.RsvpReader.Reset | frontend/static/app.js:251-268 | Playback stops and all indices return to 0. The first word is shown as "1 / n" with an empty bar, or an empty screen with "0 / 0" when there are no words |
| Reader.RsvpReader.GoBack | frontend/static/app.js:270-279 | Playback stops and the document is dropped; speed, index and screen are kept |
| Reader.RsvpReader.FindParagraphIndex | frontend/static/app.js:311-318 | The first paragraph containing the word, ignoring case, or 0 |
| Reader.RsvpReader.FindSentenceIndex | frontend/static/app.js:320-327 | The first sentence containing the word, ignoring case, or 0 |
| Reader.RsvpReader.NavigateReview | frontend/static/app.js:329-339 | Nothing without a current word. Otherwise the index is one step from the first match in the active tab's list, clamped, with the text there |
| Reader.RsvpReader.OpenReview | frontend/static/app.js:288-309 | Playback pauses. With a current word, the first matching paragraph and sentence are shown, or "No paragraph found" / "No sentence found" |
| Reader.SentencePauseScenario | frontend/static/app.js:181-209 | Three words, the second ending a sentence: after two firings the third word is current and the delay before it was 200 + 500 ms |
| Reader.PauseCancelsAdvance | frontend/static/app.js:171-179 | Play then pause then a firing leaves the index at 0 and playback stopped |
| Reader.ResetAfterEnd | frontend/static/app.js:251-268 | After playback runs past the last word, reset returns to index 0 and shows the first word again |
| Reader.LoadEmptyWhilePlaying | frontend/static/app.js:127-144 | Loading an empty document during playback keeps the timer, whose firing moves the index to 1 past the empty document |

## Left out

- Reader.RsvpReader.constructor: the empty word display, the "0 / 0" label and the empty progress bar it sets are assumed. They come from the page markup, not from the constructor.
- The page itself is not modelled: DOM elements, button texts, tab switching, the review panel's visibility and console logging. The page markup (`index.html`) is not part of this model.
- `handleFileUpload` and its `fetch` call are not modelled. The model starts from the response it would receive.
- PDF parsing, OCR, `extract_text` and the joining of pages are not modelled: they are I/O and foreign libraries. `UploadPdf` is given the extracted text.
- The FastAPI routing, the static and template routes, the health endpoint and the catch-all that turns any exception into status 500 are not modelled. The modelled code raises no exception.
- `get_character_importance` and the normalisation by the maximum score are floating-point. Each word's scores are instead an input `Ranking`, holding the normalised scores and any ascending argsort order of them. A word is given its ranking per occurrence, so numpy's tie-breaking stays unspecified.
- `next_word` in the upload loop is computed and never used, so it is not modelled.
- CharCase.Lower, CharCase.LowerString: only ASCII letters are lower-cased, while Python and JavaScript fold all of Unicode. For the ".pdf" test this is exact, because no other character lower-cases to '.', 'p', 'd' or 'f'. For the review search, matches involving non-ASCII letters may differ.
- The word-character class `\w` and the word boundary `\b` are not spelled out. `isWord` stands for `\w`, and a boundary is taken to be a change between word and non-word characters.
- Text lengths count Dafny characters, while JavaScript counts UTF-16 code units. They differ for characters outside the Basic Multilingual Plane.
- Delays and the progress percentage are exact reals, not doubles. The OVP products are exact integer quotients; see the notes above for why they agree with the source.
- Reader.RsvpReader.Play: requires that playback is paused. Its only caller, `togglePlayPause`, guarantees this. A second `play` while playing would arm a second browser timer, which one pending-timer slot cannot hold.
- Reader.RsvpReader.DisplayNextWord: requires the speed, index and progress bounds of `Valid()` but not the timer clause. Inside `Fire` the slot has just been emptied while `isPlaying` is still true.
- FocalModel.GetPrimaryFocalLetter: the source's last fallback, for a non-empty word without focal letters, is written out as in `backend/focal_model.py:155` and proved unreachable.
- The browser's timing is not modelled: when a callback runs, and how much time passes. `Fire` runs the pending callback whenever it is called.
