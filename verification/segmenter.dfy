/** The capitalisation-based sentence segmenter `collect_uppercase_sentences`:
    a single left-to-right pass over timestamped words that starts a new
    "sentence" at every word whose first character is upper case (except the
    pronoun "I"), and emits `(start, end, text)` triples. */
module Segmenter {
  import opened Options
  import opened Text

  /** One transcribed word, as the speech-to-text service returns it. */
  datatype Word = Word(text: string, start: Option<real>, end: Option<real>)

  /** One emitted triple `(sentence_start_time, last_end_time, full_sentence)`.
      The start is never missing: a sentence without one is not emitted. */
  datatype Segment = Segment(start: real, end: Option<real>, text: string)

  /** The running state of the pass: the triples emitted so far, the words of
      the sentence being built, its start time, and the last end time seen. */
  datatype State = State(
    segments: seq<Segment>,
    current: seq<string>,
    start: Option<real>,
    lastEnd: Option<real>)

  const Init: State := State([], [], None, None)

  /** The word is exactly the pronoun "I". */
  predicate IsPronounI(t: string) {
    |t| == 1 && t[0] == 'I'
  }

  /** A stripped word opens a new sentence when it starts with an upper-case
      letter and is not the single letter "I". */
  predicate IsOpener(t: string) {
    |t| > 0 && IsUpper(t[0]) && !IsPronounI(t)
  }

  /** The sentence in progress, as it would be emitted now: only when it has
      words and a start time. */
  function Pending(st: State): seq<Segment> {
    if |st.current| > 0 && st.start.Some? then
      [Segment(st.start.value, st.lastEnd, Join(st.current))]
    else []
  }

  /** One iteration of the loop body. An empty stripped word is skipped before
      anything else; the last end time is updated, when the word has one, before
      the boundary test, so a sentence closed by an opener records the latest
      end time seen up to and including that opener. */
  function Step(st: State, w: Word): State {
    var t := Strip(w.text);
    if t == [] then st
    else
      var lastEnd := if w.end.Some? then w.end else st.lastEnd;
      if IsOpener(t) then
        var closed := st.(lastEnd := lastEnd);
        State(st.segments + Pending(closed), [t], w.start, lastEnd)
      else
        State(st.segments, st.current + [t], st.start, lastEnd)
  }

  /** The state after processing `ws` from `st`, one word at a time. */
  function Run(st: State, ws: seq<Word>): State
    decreases |ws|
  {
    if |ws| == 0 then st
    else Step(Run(st, ws[..|ws| - 1]), ws[|ws| - 1])
  }

  /** After the loop, the sentence in progress is emitted by the same rule. */
  function Finish(st: State): seq<Segment> {
    st.segments + Pending(st)
  }

  /** `collect_uppercase_sentences` as a fold. */
  function CollectSentences(ws: seq<Word>): seq<Segment> {
    Finish(Run(Init, ws))
  }

  /** The loop as the source writes it, with its four running variables. */
  method CollectSentencesLoop(ws: seq<Word>) returns (sentences: seq<Segment>)
    ensures sentences == CollectSentences(ws)
  {
    sentences := [];
    var current: seq<string> := [];
    var start: Option<real> := None;
    var lastEnd: Option<real> := None;
    var i := 0;
    while i < |ws|
      invariant 0 <= i <= |ws|
      invariant State(sentences, current, start, lastEnd) == Run(Init, ws[..i])
    {
      var w := ws[i];
      assert ws[..i + 1][..i] == ws[..i];
      var t := Strip(w.text);
      i := i + 1;
      if t == [] {
        continue;
      }
      if w.end.Some? {
        lastEnd := w.end;
      }
      if IsOpener(t) {
        if |current| > 0 && start.Some? {
          sentences := sentences + [Segment(start.value, lastEnd, Join(current))];
        }
        current := [t];
        start := w.start;
      } else {
        current := current + [t];
      }
    }
    assert ws[..i] == ws;
    if |current| > 0 && start.Some? {
      sentences := sentences + [Segment(start.value, lastEnd, Join(current))];
    }
  }
}
