/** The fold `CollectSentences` computes exactly the declarative `Sentences`. */
module Equivalence {
  import opened Options
  import opened Text
  import opened Segmenter
  import opened Reference

  // Facts about the fold that hold for any words.

  /** Running over a concatenation is running over each part in turn. */
  lemma {:induction false} RunAppend(st: State, a: seq<Word>, b: seq<Word>)
    ensures Run(st, a + b) == Run(Run(st, a), b)
    decreases |b|
  {
    if |b| == 0 {
      assert a + b == a;
    } else {
      var b' := b[..|b| - 1];
      assert (a + b)[..|a + b| - 1] == a + b';
      assert (a + b)[|a + b| - 1] == b[|b| - 1];
      RunAppend(st, a, b');
    }
  }

  lemma {:induction false} RunFirst(st: State, xs: seq<Word>)
    requires |xs| > 0
    ensures Run(st, xs) == Run(Step(st, xs[0]), xs[1..])
  {
    assert xs == [xs[0]] + xs[1..];
    RunAppend(st, [xs[0]], xs[1..]);
    assert [xs[0]][..0] == [];
  }

  lemma {:induction false} RunSplit(st: State, c: seq<Word>, i: nat, j: nat)
    requires i <= j <= |c|
    ensures Run(st, c[i..]) == Run(Run(st, c[i..j]), c[j..])
  {
    assert c[i..] == c[i..j] + c[j..];
    RunAppend(st, c[i..j], c[j..]);
  }

  lemma {:induction false} FinishSplit(st: State, c: seq<Word>, f: nat)
    requires f <= |c|
    ensures Finish(Run(st, c)) == Finish(Run(Run(st, c[..f]), c[f..]))
  {
    assert c[..f] + c[f..] == c;
    RunAppend(st, c[..f], c[f..]);
  }

  lemma {:induction false} LatestEndAppend(e: Option<real>, a: seq<Word>, b: seq<Word>)
    ensures LatestEnd(e, a + b) == LatestEnd(LatestEnd(e, a), b)
    decreases |b|
  {
    if |b| == 0 {
      assert a + b == a;
    } else {
      var b' := b[..|b| - 1];
      assert (a + b)[..|a + b| - 1] == a + b';
      assert (a + b)[|a + b| - 1] == b[|b| - 1];
      LatestEndAppend(e, a, b');
    }
  }

  lemma {:induction false} LatestEndSplit(c: seq<Word>, i: nat, j: nat)
    requires i <= j <= |c|
    ensures LatestEnd(LatestEnd(None, c[..i]), c[i..j]) == LatestEnd(None, c[..j])
  {
    LatestEndAppend(None, c[..i], c[i..j]);
    assert c[..i] + c[i..j] == c[..j];
  }

  lemma {:induction false} LatestEndNext(c: seq<Word>, j: nat)
    requires j < |c|
    ensures LatestEnd(None, c[..j + 1]) == LatestEnd(LatestEnd(None, c[..j]), [c[j]])
  {
    LatestEndAppend(None, c[..j], [c[j]]);
    assert c[..j] + [c[j]] == c[..j + 1];
  }

  // Dropping the empty words.

  lemma {:induction false} CleanAppend(a: seq<Word>, b: seq<Word>)
    ensures Clean(a + b) == Clean(a) + Clean(b)
    decreases |b|
  {
    if |b| == 0 {
      assert a + b == a;
    } else {
      var b' := b[..|b| - 1];
      assert (a + b)[..|a + b| - 1] == a + b';
      assert (a + b)[|a + b| - 1] == b[|b| - 1];
      CleanAppend(a, b');
    }
  }

  /** Stripping a word before the loop body does changes nothing. */
  lemma {:induction false} StepStripped(st: State, w: Word)
    ensures Step(st, Word(Strip(w.text), w.start, w.end)) == Step(st, w)
  {
    StripIdempotent(w.text);
  }

  /** The loop sees only the stripped, non-empty words. */
  lemma {:induction false} RunClean(st: State, ws: seq<Word>)
    ensures Run(st, ws) == Run(st, Clean(ws))
    decreases |ws|
  {
    if |ws| > 0 {
      var ws' := ws[..|ws| - 1];
      var w := ws[|ws| - 1];
      var t := Strip(w.text);
      RunClean(st, ws');
      var x := Run(st, ws');
      assert Run(st, ws) == Step(x, w);
      if t == [] {
        assert Clean(ws) == Clean(ws');
      } else {
        var c' := Clean(ws');
        var w' := Word(t, w.start, w.end);
        var c := c' + [w'];
        assert Clean(ws) == c;
        assert c[..|c| - 1] == c';
        assert Run(st, c) == Step(Run(st, c'), w');
        StepStripped(x, w);
      }
    }
  }

  // The fold over cleaned words, one group (an opener and the non-openers
  // after it) at a time.

  /** The loop body on a word that is already stripped and non-empty. */
  lemma {:induction false} StepCleaned(st: State, w: Word)
    requires Cleaned(w)
    ensures
      var lastEnd := LatestEnd(st.lastEnd, [w]);
      Step(st, w) ==
        if IsOpener(w.text) then
          State(st.segments + Pending(st.(lastEnd := lastEnd)), [w.text], w.start, lastEnd)
        else
          State(st.segments, st.current + [w.text], st.start, lastEnd)
  {
    StripTrimmed(w.text);
    assert [w][..0] == [];
  }

  /** Non-opening words only extend the sentence in progress and move the last end time. */
  lemma {:induction false} RunNonOpeners(st: State, xs: seq<Word>)
    requires AllCleaned(xs) && NoOpeners(xs)
    ensures Run(st, xs) == State(st.segments, st.current + Texts(xs), st.start, LatestEnd(st.lastEnd, xs))
    decreases |xs|
  {
    if |xs| == 0 {
      assert st.current + Texts(xs) == st.current;
    } else {
      var xs' := xs[..|xs| - 1];
      var w := xs[|xs| - 1];
      RunNonOpeners(st, xs');
      var st' := Run(st, xs');
      StepCleaned(st', w);
      LatestEndAppend(st.lastEnd, xs', [w]);
      assert xs' + [w] == xs;
      assert Texts(xs) == Texts(xs') + [w.text];
    }
  }

  /** An opener followed by non-openers: the opener closes the previous
      sentence and the group becomes the sentence in progress. */
  lemma {:induction false} RunGroup(st: State, g: seq<Word>)
    requires |g| > 0 && AllCleaned(g) && IsOpener(g[0].text) && NoOpeners(g[1..])
    ensures Run(st, g) == State(Step(st, g[0]).segments, Texts(g), g[0].start, LatestEnd(st.lastEnd, g))
  {
    RunFirst(st, g);
    var st1 := Step(st, g[0]);
    assert st1 == State(st1.segments, [g[0].text], g[0].start, LatestEnd(st.lastEnd, [g[0]])) by {
      StepCleaned(st, g[0]);
    }
    RunNonOpeners(st1, g[1..]);
    assert LatestEnd(st.lastEnd, g) == LatestEnd(LatestEnd(st.lastEnd, [g[0]]), g[1..]) by {
      LatestEndAppend(st.lastEnd, [g[0]], g[1..]);
      assert [g[0]] + g[1..] == g;
    }
    assert Texts(g) == [g[0].text] + Texts(g[1..]);
  }

  /** The group of the opener at `i`, processed from the state before it. */
  lemma {:induction false} RunGroupAt(c: seq<Word>, i: nat, st: State)
    requires AllCleaned(c) && i < |c| && IsOpener(c[i].text)
    requires st.lastEnd == LatestEnd(None, c[..i])
    ensures
      var j := NextOpener(c, i + 1);
      Run(st, c[i..j]) == State(Step(st, c[i]).segments, Texts(c[i..j]), c[i].start, LatestEnd(None, c[..j]))
  {
    var j := NextOpener(c, i + 1);
    assert c[i..j][1..] == c[i + 1..j];
    RunGroup(st, c[i..j]);
    LatestEndSplit(c, i, j);
  }

  /** The opener at `j` closes the group of opener `i` into `SentenceAt(c, i)`. */
  lemma {:induction false} CloseGroupAtOpener(c: seq<Word>, i: nat, st: State)
    requires i < |c| && NextOpener(c, i + 1) < |c| && Cleaned(c[NextOpener(c, i + 1)])
    requires
      var j := NextOpener(c, i + 1);
      st == State(st.segments, Texts(c[i..j]), c[i].start, LatestEnd(None, c[..j]))
    ensures
      var j := NextOpener(c, i + 1);
      Step(st, c[j]).segments == st.segments + (if c[i].start.Some? then [SentenceAt(c, i)] else [])
  {
    var j := NextOpener(c, i + 1);
    StepCleaned(st, c[j]);
    LatestEndNext(c, j);
  }

  /** At the end of the input the group of opener `i` is emitted as `SentenceAt(c, i)`. */
  lemma {:induction false} CloseGroupAtEnd(c: seq<Word>, i: nat, st: State)
    requires i < |c| && NextOpener(c, i + 1) == |c|
    requires st == State(st.segments, Texts(c[i..]), c[i].start, LatestEnd(None, c))
    ensures Finish(st) == st.segments + (if c[i].start.Some? then [SentenceAt(c, i)] else [])
  {
    assert c[..|c|] == c;
  }

  // The declarative side, one opener at a time.

  /** Positions without an opener head no sentence. */
  lemma {:induction false} HeadsSkip(c: seq<Word>, i: nat, j: nat)
    requires i <= j <= |c|
    requires forall k :: i <= k < j ==> !IsOpener(c[k].text)
    ensures HeadsFrom(c, i) == HeadsFrom(c, j)
    decreases j - i
  {
    if i < j {
      assert !IsOpener(c[i].text);
      assert HeadsFrom(c, i) == HeadsFrom(c, i + 1);
      HeadsSkip(c, i + 1, j);
    }
  }

  /** The sentences from opener `i` on: the one it heads, if it has a start,
      then those from the next opener on. */
  lemma {:induction false} SentencesFromOpener(c: seq<Word>, i: nat)
    requires i < |c| && IsOpener(c[i].text)
    ensures
      var j := NextOpener(c, i + 1);
      SentencesAt(c, HeadsFrom(c, i)) ==
        (if c[i].start.Some? then [SentenceAt(c, i)] else []) + SentencesAt(c, HeadsFrom(c, j))
  {
    var j := NextOpener(c, i + 1);
    HeadsSkip(c, i + 1, j);
    if c[i].start.Some? {
      assert HeadsFrom(c, i) == [i] + HeadsFrom(c, i + 1);
      assert ([i] + HeadsFrom(c, i + 1))[1..] == HeadsFrom(c, i + 1);
    }
  }

  // The induction over openers.

  /** Processing the group of opener `i` when another opener follows it: the
      state reached is ready for that opener, which closes the group. */
  lemma {:induction false} GroupThenOpener(c: seq<Word>, i: nat, st: State)
    requires AllCleaned(c) && i < |c| && IsOpener(c[i].text)
    requires st.lastEnd == LatestEnd(None, c[..i])
    requires NextOpener(c, i + 1) < |c|
    ensures
      var j := NextOpener(c, i + 1);
      var st' := Run(st, c[i..j]);
      && st'.lastEnd == LatestEnd(None, c[..j])
      && Run(st, c[i..]) == Run(st', c[j..])
      && Step(st', c[j]).segments ==
           Step(st, c[i]).segments + (if c[i].start.Some? then [SentenceAt(c, i)] else [])
  {
    var j := NextOpener(c, i + 1);
    RunGroupAt(c, i, st);
    RunSplit(st, c, i, j);
    CloseGroupAtOpener(c, i, Run(st, c[i..j]));
  }

  /** Processing the last group, which runs to the end of the input. */
  lemma {:induction false} LastGroup(c: seq<Word>, i: nat, st: State)
    requires AllCleaned(c) && i < |c| && IsOpener(c[i].text)
    requires st.lastEnd == LatestEnd(None, c[..i])
    requires NextOpener(c, i + 1) == |c|
    ensures Finish(Run(st, c[i..])) == Step(st, c[i]).segments + SentencesAt(c, HeadsFrom(c, i))
  {
    RunGroupAt(c, i, st);
    assert c[..|c|] == c;
    CloseGroupAtEnd(c, i, Run(st, c[i..]));
    SentencesFromOpener(c, i);
    assert HeadsFrom(c, |c|) == [];
  }

  /** The sequence algebra behind the last step of `FinishFrom`, stated apart
      from it so the solver proves it in a context with no other facts. */
  lemma {:induction false} Chain(r1: seq<Segment>, r2: seq<Segment>, s2: seq<Segment>, before: seq<Segment>,
              here: seq<Segment>, restJ: seq<Segment>, restI: seq<Segment>)
    requires r1 == r2 && r2 == s2 + restJ && s2 == before + here && restI == here + restJ
    ensures r1 == before + restI
  {
  }

  /** The main induction: from the state before opener `i`, the rest of the
      run emits what the previous sentence closes into, then one sentence per
      head from `i` on. */
  lemma {:induction false} FinishFrom(c: seq<Word>, i: nat, st: State)
    requires AllCleaned(c) && i < |c| && IsOpener(c[i].text)
    requires st.lastEnd == LatestEnd(None, c[..i])
    ensures Finish(Run(st, c[i..])) == Step(st, c[i]).segments + SentencesAt(c, HeadsFrom(c, i))
    decreases |c| - i
  {
    var j := NextOpener(c, i + 1);
    if j == |c| {
      LastGroup(c, i, st);
    } else {
      var st' := Run(st, c[i..j]);
      GroupThenOpener(c, i, st);
      FinishFrom(c, j, st');
      SentencesFromOpener(c, i);
      Chain(Finish(Run(st, c[i..])), Finish(Run(st', c[j..])), Step(st', c[j]).segments,
            Step(st, c[i]).segments, if c[i].start.Some? then [SentenceAt(c, i)] else [],
            SentencesAt(c, HeadsFrom(c, j)), SentencesAt(c, HeadsFrom(c, i)));
    }
  }

  /** The words before the first opener leave no sentence behind, only the
      last end time among them. */
  lemma {:induction false} RunLead(c: seq<Word>)
    requires AllCleaned(c)
    ensures
      var f := NextOpener(c, 0);
      Run(Init, c[..f]) == State([], Texts(c[..f]), None, LatestEnd(None, c[..f]))
  {
    var f := NextOpener(c, 0);
    RunNonOpeners(Init, c[..f]);
    assert [] + Texts(c[..f]) == Texts(c[..f]);
  }

  /** The segmenter on any input is the segmenter on its cleaned words, split
      at the first opener. */
  lemma {:induction false} SplitAtFirstOpener(ws: seq<Word>)
    ensures
      var c := Clean(ws);
      var f := NextOpener(c, 0);
      CollectSentences(ws) == Finish(Run(Run(Init, c[..f]), c[f..]))
  {
    var c := Clean(ws);
    RunClean(Init, ws);
    FinishSplit(Init, c, NextOpener(c, 0));
  }

  /** The fold and the declarative description agree on every input. */
  lemma {:induction false} CollectSentencesIsSentences(ws: seq<Word>)
    ensures CollectSentences(ws) == Sentences(ws)
  {
    var c := Clean(ws);
    var f := NextOpener(c, 0);
    SplitAtFirstOpener(ws);
    RunLead(c);
    HeadsSkip(c, 0, f);
    if f == |c| {
      assert c[f..] == [];
    } else {
      FinishFrom(c, f, Run(Init, c[..f]));
    }
  }
}
