/** A declarative description of what the segmenter emits, written without
    any running state: after the empty words are dropped and the others
    stripped, every opener that carries a start time yields exactly one
    sentence, made of the opener and the non-openers after it, and ending at
    the latest end time seen up to and including the next opener (or over the
    whole input for the last opener). */
module Reference {
  import opened Options
  import opened Text
  import opened Segmenter

  /** A word as the loop body sees it after the empty-word skip. */
  predicate Cleaned(w: Word) {
    w.text != [] && Trimmed(w.text)
  }

  predicate AllCleaned(c: seq<Word>) {
    forall k :: 0 <= k < |c| ==> Cleaned(c[k])
  }

  predicate NoOpeners(c: seq<Word>) {
    forall k :: 0 <= k < |c| ==> !IsOpener(c[k].text)
  }

  /** The input with every word stripped and the empty ones dropped. */
  function Clean(ws: seq<Word>): (c: seq<Word>)
    ensures |c| <= |ws|
    ensures AllCleaned(c)
    ensures (forall k :: 0 <= k < |ws| ==> ws[k].start.Some?) ==>
              forall k :: 0 <= k < |c| ==> c[k].start.Some?
    decreases |ws|
  {
    if |ws| == 0 then []
    else
      var w := ws[|ws| - 1];
      var t := Strip(w.text);
      Clean(ws[..|ws| - 1]) + (if t == [] then [] else [Word(t, w.start, w.end)])
  }

  /** The end time of the last word of `ws` that has one, or `e` if none does. */
  function LatestEnd(e: Option<real>, ws: seq<Word>): Option<real>
    decreases |ws|
  {
    if |ws| == 0 then e
    else if ws[|ws| - 1].end.Some? then ws[|ws| - 1].end
    else LatestEnd(e, ws[..|ws| - 1])
  }

  function Texts(ws: seq<Word>): (ts: seq<string>)
    ensures |ts| == |ws|
    ensures forall k :: 0 <= k < |ws| ==> ts[k] == ws[k].text
  {
    seq(|ws|, k requires 0 <= k < |ws| => ws[k].text)
  }

  /** The position of the first opener at or after `i`, or `|c|` if there is none. */
  function NextOpener(c: seq<Word>, i: nat): (j: nat)
    requires i <= |c|
    ensures i <= j <= |c|
    ensures forall k :: i <= k < j ==> !IsOpener(c[k].text)
    ensures j < |c| ==> IsOpener(c[j].text)
    decreases |c| - i
  {
    if i == |c| || IsOpener(c[i].text) then i else NextOpener(c, i + 1)
  }

  /** The positions, in increasing order, of the openers at or after `i` that
      carry a start time: the words that head an emitted sentence. */
  function HeadsFrom(c: seq<Word>, i: nat): (hs: seq<nat>)
    requires i <= |c|
    ensures forall n :: 0 <= n < |hs| ==> i <= hs[n] < |c| && c[hs[n]].start.Some?
    decreases |c| - i
  {
    if i == |c| then []
    else if IsOpener(c[i].text) && c[i].start.Some? then [i] + HeadsFrom(c, i + 1)
    else HeadsFrom(c, i + 1)
  }

  /** The number of openers at or after position `i`. */
  function CountOpeners(c: seq<Word>, i: nat): nat
    requires i <= |c|
    decreases |c| - i
  {
    if i == |c| then 0 else (if IsOpener(c[i].text) then 1 else 0) + CountOpeners(c, i + 1)
  }

  /** The sentence headed by the opener at position `k`. */
  function SentenceAt(c: seq<Word>, k: nat): Segment
    requires k < |c| && c[k].start.Some?
  {
    var j := NextOpener(c, k + 1);
    var close := if j < |c| then j + 1 else |c|;
    Segment(c[k].start.value, LatestEnd(None, c[..close]), Join(Texts(c[k..j])))
  }

  function SentencesAt(c: seq<Word>, hs: seq<nat>): (r: seq<Segment>)
    requires forall n :: 0 <= n < |hs| ==> hs[n] < |c| && c[hs[n]].start.Some?
    ensures |r| == |hs|
    ensures forall n {:trigger r[n]} :: 0 <= n < |hs| ==> r[n] == SentenceAt(c, hs[n])
  {
    seq(|hs|, n requires 0 <= n < |hs| => SentenceAt(c, hs[n]))
  }

  /** What `collect_uppercase_sentences` returns, described sentence by sentence. */
  function Sentences(ws: seq<Word>): seq<Segment> {
    var c := Clean(ws);
    SentencesAt(c, HeadsFrom(c, 0))
  }
}
