/** The properties the segmenter promises, stated on `CollectSentences` for
    every input and proved through the declarative `Sentences`. */
module Properties {
  import opened Options
  import opened Text
  import opened Segmenter
  import opened Reference
  import opened Equivalence

  // Facts about the declarative side.

  /** The heads are exactly the openers with a start time, in increasing order. */
  lemma {:induction false} HeadsFromExact(c: seq<Word>, i: nat)
    requires i <= |c|
    ensures var hs := HeadsFrom(c, i);
      && (forall n :: 0 <= n < |hs| ==> IsOpener(c[hs[n]].text))
      && (forall n, m :: 0 <= n < m < |hs| ==> hs[n] < hs[m])
      && (forall k :: i <= k < |c| && IsOpener(c[k].text) && c[k].start.Some? ==> k in hs)
    decreases |c| - i
  {
    if i < |c| {
      HeadsFromExact(c, i + 1);
    }
  }

  lemma {:induction false} SentencesAtIndex(c: seq<Word>, hs: seq<nat>, n: nat)
    requires forall m :: 0 <= m < |hs| ==> hs[m] < |c| && c[hs[m]].start.Some?
    requires n < |hs|
    ensures SentencesAt(c, hs)[n] == SentenceAt(c, hs[n])
    decreases n
  {
    if n > 0 {
      SentencesAtIndex(c, hs[1..], n - 1);
    }
  }

  lemma {:induction false} HeadsCount(c: seq<Word>, i: nat)
    requires i <= |c|
    ensures |HeadsFrom(c, i)| <= CountOpeners(c, i) <= |c| - i
    ensures (forall k :: i <= k < |c| ==> c[k].start.Some?) ==> |HeadsFrom(c, i)| == CountOpeners(c, i)
    decreases |c| - i
  {
    if i < |c| {
      HeadsCount(c, i + 1);
    }
  }

  function SegmentTexts(ss: seq<Segment>): (ts: seq<string>)
    ensures |ts| == |ss|
  {
    if |ss| == 0 then [] else [ss[0].text] + SegmentTexts(ss[1..])
  }

  lemma {:induction false} SegmentTextsCons(x: Segment, rest: seq<Segment>)
    ensures SegmentTexts([x] + rest) == [x.text] + SegmentTexts(rest)
  {
    assert ([x] + rest)[1..] == rest;
  }

  lemma {:induction false} TextsSplit(c: seq<Word>, i: nat, j: nat)
    requires i <= j <= |c|
    ensures Texts(c[i..]) == Texts(c[i..j]) + Texts(c[j..])
  {
    assert c[i..] == c[i..j] + c[j..];
  }

  /** From an opener whose next opener `j` exists, the joined texts split at `j`. */
  lemma {:induction false} JoinedGroupThenRest(c: seq<Word>, i: nat)
    requires i < |c| && IsOpener(c[i].text) && c[i].start.Some?
    requires NextOpener(c, i + 1) < |c|
    requires
      var j := NextOpener(c, i + 1);
      Join(SegmentTexts(SentencesAt(c, HeadsFrom(c, j)))) == Join(Texts(c[j..])) &&
      |SentencesAt(c, HeadsFrom(c, j))| > 0
    ensures Join(SegmentTexts(SentencesAt(c, HeadsFrom(c, i)))) == Join(Texts(c[i..]))
  {
    var j := NextOpener(c, i + 1);
    SentencesFromOpener(c, i);
    var x := SentenceAt(c, i);
    var rest := SentencesAt(c, HeadsFrom(c, j));
    SegmentTextsCons(x, rest);
    JoinAppend([x.text], SegmentTexts(rest));
    JoinAppend(Texts(c[i..j]), Texts(c[j..]));
    TextsSplit(c, i, j);
  }

  /** From the last opener, its sentence is everything that is left. */
  lemma {:induction false} JoinedLastGroup(c: seq<Word>, i: nat)
    requires i < |c| && IsOpener(c[i].text) && c[i].start.Some?
    requires NextOpener(c, i + 1) == |c|
    ensures Join(SegmentTexts(SentencesAt(c, HeadsFrom(c, i)))) == Join(Texts(c[i..]))
  {
    var x := SentenceAt(c, i);
    SentencesFromOpener(c, i);
    assert HeadsFrom(c, |c|) == [];
    assert SentencesAt(c, HeadsFrom(c, i)) == [x] + [];
    SegmentTextsCons(x, []);
    assert SegmentTexts([x]) == [x.text];
    assert c[i..|c|] == c[i..];
  }

  lemma {:induction false} JoinedSentencesFrom(c: seq<Word>, i: nat)
    requires i < |c| && IsOpener(c[i].text)
    requires forall k :: 0 <= k < |c| ==> c[k].start.Some?
    ensures Join(SegmentTexts(SentencesAt(c, HeadsFrom(c, i)))) == Join(Texts(c[i..]))
    decreases |c| - i
  {
    var j := NextOpener(c, i + 1);
    if j == |c| {
      JoinedLastGroup(c, i);
    } else {
      JoinedSentencesFrom(c, j);
      assert HeadsFrom(c, j) == [j] + HeadsFrom(c, j + 1);
      JoinedGroupThenRest(c, i);
    }
  }

  // Properties of the segmenter on every input.

  lemma {:induction false} CollectCleaned(ws: seq<Word>)
    ensures CollectSentences(ws) == Finish(Run(Init, Clean(ws)))
  {
    RunClean(Init, ws);
  }

  lemma {:induction false} CleanDropsEmpty(a: seq<Word>, w: Word, b: seq<Word>)
    requires Strip(w.text) == []
    ensures Clean(a + [w] + b) == Clean(a + b)
  {
    CleanAppend(a + [w], b);
    CleanAppend(a, [w]);
    CleanAppend(a, b);
    assert [w][..0] == [];
    assert Clean([w]) == [];
    assert Clean(a) + [] == Clean(a);
  }

  /** A word that strips to nothing has no effect wherever it is inserted: it
      is skipped before the last end time is updated. */
  lemma {:induction false} EmptyWordIgnored(a: seq<Word>, w: Word, b: seq<Word>)
    requires Strip(w.text) == []
    ensures CollectSentences(a + [w] + b) == CollectSentences(a + b)
  {
    CollectCleaned(a + [w] + b);
    CollectCleaned(a + b);
    CleanDropsEmpty(a, w, b);
  }

  /** An input whose words all strip to nothing yields no sentence. */
  lemma {:induction false} AllEmptyYieldsNothing(ws: seq<Word>)
    requires forall k :: 0 <= k < |ws| ==> Strip(ws[k].text) == []
    ensures CollectSentences(ws) == []
    decreases |ws|
  {
    if |ws| > 0 {
      var ws' := ws[..|ws| - 1];
      AllEmptyYieldsNothing(ws');
      EmptyWordIgnored(ws', ws[|ws| - 1], []);
      assert ws' + [ws[|ws| - 1]] + [] == ws;
      assert ws' + [] == ws';
    }
  }

  /** Sentences come one per opener that has a start time, in the order of
      those openers; each starts at its opener's start time and its text
      begins with the opener, a word with an upper-case first letter that is
      not "I". Openers without a start time head no sentence. */
  lemma {:induction false} SentencesFollowOpeners(ws: seq<Word>)
    ensures
      var c := Clean(ws);
      var hs := HeadsFrom(c, 0);
      var out := CollectSentences(ws);
      && |out| == |hs|
      && (forall n, m :: 0 <= n < m < |hs| ==> hs[n] < hs[m])
      && (forall k :: 0 <= k < |c| && IsOpener(c[k].text) && c[k].start.Some? ==> k in hs)
      && (forall n :: 0 <= n < |out| ==>
            && IsOpener(c[hs[n]].text)
            && Some(out[n].start) == c[hs[n]].start
            && BeginsWithWord(out[n].text, c[hs[n]].text))
  {
    var c := Clean(ws);
    var hs := HeadsFrom(c, 0);
    CollectSentencesIsSentences(ws);
    HeadsFromExact(c, 0);
    forall n | 0 <= n < |hs|
      ensures Some(Sentences(ws)[n].start) == c[hs[n]].start
      ensures BeginsWithWord(Sentences(ws)[n].text, c[hs[n]].text)
    {
      SentencesAtIndex(c, hs, n);
      var j := NextOpener(c, hs[n] + 1);
      JoinBeginsWithFirst(Texts(c[hs[n]..j]));
    }
  }

  /** The number of sentences is the number of openers that carry a start
      time, so never more than the number of non-empty words; when every word
      has a start it is exactly the number of openers. */
  lemma {:induction false} SentenceCount(ws: seq<Word>)
    ensures |CollectSentences(ws)| <= CountOpeners(Clean(ws), 0) <= |Clean(ws)| <= |ws|
    ensures (forall k :: 0 <= k < |ws| ==> ws[k].start.Some?) ==>
              |CollectSentences(ws)| == CountOpeners(Clean(ws), 0)
  {
    CollectSentencesIsSentences(ws);
    HeadsCount(Clean(ws), 0);
  }

  /** What `SentenceAt` says about the sentence headed at `k`. */
  lemma {:induction false} SentenceAtParts(c: seq<Word>, k: nat)
    requires k < |c| && c[k].start.Some?
    ensures
      var j := NextOpener(c, k + 1);
      && k < j
      && SentenceAt(c, k).text == Join(Texts(c[k..j]))
      && SentenceAt(c, k).end == (if j < |c| then LatestEnd(None, c[..j + 1]) else LatestEnd(None, c))
  {
    assert c[..|c|] == c;
  }

  /** The sentence headed by the opener at `k` spans the words from `k` up to
      the next opener, and ends at the latest end time up to and including
      that next opener, or at the latest end time of the whole input when no
      opener follows. */
  predicate SpansToNextOpener(c: seq<Word>, k: nat, s: Segment)
    requires k < |c|
  {
    var j := NextOpener(c, k + 1);
    && s.text == Join(Texts(c[k..j]))
    && s.end == (if j < |c| then LatestEnd(None, c[..j + 1]) else LatestEnd(None, c))
  }

  /** A sentence's text is its opener and the non-openers after it up to the
      next opener; it ends at the latest end time up to and including that next
      opener, or at the latest end time of the whole input for the last opener.
      Every sentence is headed at or after the first opener, so the words before
      the first opener appear in no sentence. */
  lemma {:induction false} SentenceBounds(ws: seq<Word>)
    ensures
      var c := Clean(ws);
      var hs := HeadsFrom(c, 0);
      var out := CollectSentences(ws);
      && |out| == |hs|
      && forall n :: 0 <= n < |out| ==>
           NextOpener(c, 0) <= hs[n] < |c| && SpansToNextOpener(c, hs[n], out[n])
  {
    CollectSentencesIsSentences(ws);
    SentencesBoundsAt(Clean(ws));
  }

  lemma {:induction false} SentencesBoundsAt(c: seq<Word>)
    ensures
      var hs := HeadsFrom(c, 0);
      var out := SentencesAt(c, hs);
      forall n :: 0 <= n < |out| ==>
        NextOpener(c, 0) <= hs[n] < |c| && SpansToNextOpener(c, hs[n], out[n])
  {
    var hs := HeadsFrom(c, 0);
    HeadsSkip(c, 0, NextOpener(c, 0));
    forall n | 0 <= n < |hs| {
      SentenceAtParts(c, hs[n]);
    }
  }

  /** When every word has a start time the sentences partition the non-empty
      words from the first opener on: joining the sentence texts gives back
      those words, in order, joined by spaces. */
  lemma {:induction false} LosslessPartition(ws: seq<Word>)
    requires forall k :: 0 <= k < |ws| ==> ws[k].start.Some?
    ensures
      var c := Clean(ws);
      Join(SegmentTexts(CollectSentences(ws))) == Join(Texts(c[NextOpener(c, 0)..]))
  {
    var c := Clean(ws);
    var f := NextOpener(c, 0);
    CollectSentencesIsSentences(ws);
    HeadsSkip(c, 0, f);
    if f < |c| {
      JoinedSentencesFrom(c, f);
    } else {
      assert HeadsFrom(c, f) == [];
      assert c[f..] == [];
    }
  }

  /** The end time a sentence records: the end of the last word that has
      one, or the carried-in value when no word has an end. */
  lemma {:induction false} LatestEndIsLastEnd(e: Option<real>, ws: seq<Word>)
    ensures (forall k :: 0 <= k < |ws| ==> ws[k].end.None?) ==> LatestEnd(e, ws) == e
    ensures forall k :: 0 <= k < |ws| && ws[k].end.Some? && (forall m :: k < m < |ws| ==> ws[m].end.None?) ==>
              LatestEnd(e, ws) == ws[k].end
    decreases |ws|
  {
    if |ws| > 0 {
      var last := |ws| - 1;
      var init := ws[..last];
      LatestEndIsLastEnd(e, init);
      forall k | 0 <= k < |ws| && ws[k].end.Some? && (forall m :: k < m < |ws| ==> ws[m].end.None?)
        ensures LatestEnd(e, ws) == ws[k].end
      {
        if k < last {
          assert init[k] == ws[k];
          assert forall m :: k < m < |init| ==> init[m].end.None?;
        }
      }
    }
  }
}
