# Capitalisation-based sentence segmentation of a timestamped transcript

The application transcribes an uploaded song into words with start and end
times. It cuts the word stream into "sentences" at every word that begins
with an upper-case letter, scores each sentence's sentiment, and plots the
scores over time together with their average. This project models the part
of that pipeline that is the program's own logic:

- `collect_uppercase_sentences`, a single left-to-right pass over the words.
  It keeps the words of the sentence in progress, that sentence's start time
  and the last end time seen, and emits `(start, end, text)` triples.
- The loop that pairs each sentence's start time with its sentiment score.
- The average of the scores, which is 0 when there are none.

Modules, one per file:

- `Options` (`options.dfy`): the optional value. Python's `None` becomes `Option.None`.
- `Text` (`text.dfy`):
  - `str.strip` over ASCII whitespace;
  - the upper-case test on a first character;
  - `" ".join`.
- `Segmenter` (`segmenter.dfy`):
  - the word and segment records;
  - the running state;
  - one loop iteration as `Step`;
  - the pass as a left fold `Run` with `CollectSentences = Finish(Run(Init, ws))`;
  - `CollectSentencesLoop`, the loop as the source writes it. Its invariant is that its four variables equal the fold over the words processed so far.
- `Reference` (`reference.dfy`): an independent description of the same output. There is one sentence per opener that has a start time. Its text is the opener followed by the non-openers up to the next opener. Its end is the latest end time up to and including that next opener, or over the whole input for the last opener. An *opener* is a non-empty stripped word whose first character is upper case and which is not `"I"`.
- `Equivalence` (`equivalence.dfy`): the proof that the fold and the reference description agree on every input.
- `Properties` (`properties.dfy`): the segmenter's promises, stated on `CollectSentences`.
- `Aggregator` (`aggregator.dfy`):
  - pairing of start times with scores;
  - the sum and the guarded average;
  - the whole pipeline after transcription.
- `Examples` (`examples.dfy`): small transcripts and what they produce.

Modelling choices:

- Times are `Option<real>`. They are only copied and compared, never computed with.
- The sentiment scorer is a function parameter `string -> real`.
- Scores and the average are exact reals.
- `str.strip` removes the ASCII characters Python treats as whitespace: 0x09-0x0D and 0x1C-0x20.
- `str.isupper` on the first character is `'A'..'Z'`.

Two behaviours of the code are easy to misread:

- Words before the first opener are dropped. An opener is a non-empty stripped word whose first character is upper case and which is not `"I"`. Until the first opener sets a sentence start time, the words collected so far are never emitted, and the opener replaces them (app/app.py:76, :83). So `[I(0.0,0.5), am(0.5,0.9), Fine(0.9,1.2)]` gives only `(0.9, 1.2, "Fine")` (`Examples.PronounIDoesNotOpen`).
- A closed sentence ends at the latest end time seen up to and including the opener that closes it. The last end time is updated, when the word has one (app/app.py:70-71), before the boundary test (app/app.py:74) (`Properties.SentenceBounds`). So `[Hello(0.0,0.4), World(0.4,0.8)]` closes "Hello" with 0.8, not 0.4 (`Examples.HelloWorld`). If the closing opener has no end time, the closed sentence keeps the latest earlier one: `[Hello(0.0,0.4), World(0.4,None)]` gives `(0.0, 0.4, "Hello")` and `(0.4, 0.4, "World")` (`Examples.OpenerWithoutEnd`).

## Model

| member | source | states |
|---|---|---|
| Segmenter.CollectSentencesLoop | app/app.py:54-94 | The loop returns what the word-by-word fold returns. After each word, the four running variables equal the fold over the words seen so far. |
| Equivalence.CollectSentencesIsSentences | app/app.py:54-94 | On every input, the pass returns exactly one sentence per opener that has a start time, in order. Each one's text is the opener and the following non-openers, joined by spaces. Its end is the latest end time up to and including the next opener, or over the whole input for the last sentence. |
| Equivalence.RunClean | app/app.py:60-67 | Processing the raw words gives the same state as processing only the non-empty words, each stripped. |
| Properties.EmptyWordIgnored | app/app.py:60-71 | Inserting a word that strips to nothing anywhere in the input leaves the output unchanged, including every end time. |
| Properties.AllEmptyYieldsNothing | app/app.py:60-92 | An input whose words all strip to nothing yields no sentence. |
| Properties.SentencesFollowOpeners | app/app.py:74-92 | Sentences match one-to-one the openers that have a start time, in increasing position. Each opener starts with an upper-case letter and is not "I". Each sentence's start is its opener's start and its text begins with the opener. An opener without a start time heads no sentence. |
| Properties.SentenceCount | app/app.py:60-94 | The number of sentences is at most the number of openers, which is at most the number of non-empty words. It equals the number of openers when every word has a start time. |
| Properties.SentenceBounds | app/app.py:70-92 | Each sentence covers the words from its opener up to the next opener, all at or after the first opener, so words before the first opener appear in no sentence. A sentence closed by an opener ends at the latest end time up to and including that opener. The last sentence ends at the latest end time in the whole input. |
| Properties.LatestEndIsLastEnd | app/app.py:70-71 | The recorded end time is the end of the last word that has one, or stays unset when no word has one. |
| Properties.LosslessPartition | app/app.py:74-92 | When every word has a start time, the sentence texts joined by spaces give back exactly the stripped non-empty words from the first opener on, in order, joined by spaces. |
| Properties.HeadsFromExact | app/app.py:74-84 | The positions that head a sentence are exactly the openers with a start time, strictly increasing. |
| Text.Strip | app/app.py:61 | The stripped word has no surrounding whitespace. It is empty exactly when the word is all whitespace. |
| Text.StripPadded | app/app.py:61 | Stripping removes exactly the whitespace around a word that has none at its ends. |
| Text.StripIdempotent | app/app.py:61 | Stripping twice gives the same result as stripping once. |
| Text.JoinAppend | app/app.py:77 | Joining two non-empty word lists with spaces is the two joins with one space between them. |
| Text.JoinBeginsWithFirst | app/app.py:77 | A non-empty space-joined text begins with its first word, as a whole word. |
| Segmenter.IsOpener | app/app.py:74 | The boundary test. The body is the model: a stripped word opens a sentence when its first character is upper case and it is not exactly "I". `Properties.SentencesFollowOpeners` states which sentences this test produces. |
| Segmenter.Step | app/app.py:60-86 | One loop iteration. The body is the model. `Equivalence.RunClean` shows that an empty stripped word leaves the state alone and other words act stripped. `Examples.HelloWorld` traces the end-time update before the boundary test. |
| Segmenter.Pending | app/app.py:76-79 | The emission guard. The body is the model: the sentence in progress is emitted only if it has words and a start time. `Examples.OpenerWithoutStart` and `Examples.PronounIDoesNotOpen` exercise the guard. |
| Segmenter.Run | app/app.py:60-86 | The loop as a left fold over the words. The body is the model. `Segmenter.CollectSentencesLoop` shows the literal loop computes it. |
| Segmenter.Finish | app/app.py:88-92 | The emission after the loop, by the same guard. The body is the model. The last-sentence case of `Properties.SentenceBounds` pins it down. |
| Segmenter.CollectSentences | app/app.py:54-94 | `collect_uppercase_sentences` itself. The body is the model. `Equivalence.CollectSentencesIsSentences` equates it on every input to the per-opener definition, and every property lemma is stated on it. |
| Text.Join | app/app.py:77 | `" ".join`. The body is the model. `Text.JoinAppend` and `Text.JoinBeginsWithFirst` pin it down. |
| Aggregator.Sum | app/app.py:111 | Python's `sum`, adding left to right. The body is the model. `Aggregator.SumBounds` bounds it and `Aggregator.Average` relates the mean to it. |
| Aggregator.SumBounds | app/app.py:111 | A sum of n scores, each within [lo, hi], lies within [n·lo, n·hi]. |
| Aggregator.PairScores | app/app.py:99-105 | The timestamp and sentiment lists have one entry per sentence, in order. Entry n holds sentence n's start and the score of its text. |
| Aggregator.Average | app/app.py:111 | The average is 0 for no scores. Otherwise it times the number of scores gives their sum. |
| Aggregator.AverageWithinBounds | app/app.py:111 | The average of a non-empty list of scores lies within any bounds of the scores, so compound scores in [-1, 1] average to a value in [-1, 1]. |
| Aggregator.Analyze | app/app.py:96-111 | Segmentation followed by scoring gives one point per emitted sentence at that sentence's start, carrying its score. The average is 0 when no sentence was emitted. |
| Examples.HelloWorld | app/app.py:70-80 | "Hello" (0, 0.4) "World" (0.4, 0.8) gives (0, 0.8, "Hello") and (0.4, 0.8, "World"). |
| Examples.OpenerWithoutEnd | app/app.py:70-80 | "Hello" (0, 0.4) "World" (0.4, no end) gives (0, 0.4, "Hello") and (0.4, 0.4, "World"): an opener without an end time leaves the last end time as it was. |
| Examples.PronounIDoesNotOpen | app/app.py:74-86 | "I" (0, 0.5) "am" (0.5, 0.9) "Fine" (0.9, 1.2) gives only (0.9, 1.2, "Fine"). |
| Examples.OpenerWithoutStart | app/app.py:76-92 | An opener without a start time followed by a lower-case word gives no sentence at all. |
| Examples.AverageOfThree | app/app.py:111 | The average of 0.5, -0.5 and 1.0 is 1/3. |

## Left out

- The Streamlit page, the file upload, and writing and removing the temporary audio file are user interface and file I/O.
- The Whisper transcription request and its error handling are a network call. Its result appears only as the input `seq<Word>`.
- VADER's `polarity_scores` is a third-party lexicon scorer. It is a function parameter, and no property depends on its internals.
- Plotting with matplotlib and the `:.2f` label are rendering.
- Aggregator.Average: computes in exact real arithmetic, not in floating point, so rounding of the sum and the division is not modelled.
- Text.Strip: removes only ASCII whitespace, not the other Unicode whitespace Python's `str.strip` also removes.
- Text.IsUpper, Segmenter.IsOpener: treat only 'A'..'Z' as upper case, not the other Unicode upper-case letters `str.isupper` accepts.
- A word's start time may be missing in the model, because app/app.py:84 copies the word's start time into the sentence start without checking it. The guards at :76 and :88 then test the sentence start for `None`.
