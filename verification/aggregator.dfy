/** The step after segmentation: pair each sentence's start time with its
    sentiment score, and average the scores, 0 when there are none. The
    sentiment scorer is a function parameter. */
module Aggregator {
  import opened Segmenter

  /** The two parallel lists the chart is drawn from. */
  datatype Series = Series(timestamps: seq<real>, sentiments: seq<real>)

  /** Python's `sum`, adding left to right. */
  function Sum(xs: seq<real>): real
    decreases |xs|
  {
    if |xs| == 0 then 0.0 else Sum(xs[..|xs| - 1]) + xs[|xs| - 1]
  }

  /** The pairing loop: one point per sentence, in sentence order. */
  method PairScores(sentences: seq<Segment>, score: string -> real) returns (series: Series)
    ensures |series.timestamps| == |sentences| && |series.sentiments| == |sentences|
    ensures forall n :: 0 <= n < |sentences| ==>
              series.timestamps[n] == sentences[n].start && series.sentiments[n] == score(sentences[n].text)
  {
    var timestamps: seq<real> := [];
    var sentiments: seq<real> := [];
    var n := 0;
    while n < |sentences|
      invariant 0 <= n <= |sentences|
      invariant |timestamps| == n && |sentiments| == n
      invariant forall m :: 0 <= m < n ==>
                  timestamps[m] == sentences[m].start && sentiments[m] == score(sentences[m].text)
    {
      var s := sentences[n];
      timestamps := timestamps + [s.start];
      sentiments := sentiments + [score(s.text)];
      n := n + 1;
    }
    series := Series(timestamps, sentiments);
  }

  /** The mean score, with the empty list mapped to 0 instead of a division by zero. */
  function Average(xs: seq<real>): (r: real)
    ensures |xs| == 0 ==> r == 0.0
    ensures |xs| > 0 ==> r * (|xs| as real) == Sum(xs)
  {
    if |xs| == 0 then 0.0 else Sum(xs) / (|xs| as real)
  }

  lemma {:induction false} SumBounds(xs: seq<real>, lo: real, hi: real)
    requires forall k :: 0 <= k < |xs| ==> lo <= xs[k] <= hi
    ensures (|xs| as real) * lo <= Sum(xs) <= (|xs| as real) * hi
    decreases |xs|
  {
    if |xs| > 0 {
      var k := (|xs| - 1) as real;
      SumBounds(xs[..|xs| - 1], lo, hi);
      assert (|xs| as real) * lo == k * lo + lo;
      assert (|xs| as real) * hi == k * hi + hi;
    }
  }

  lemma PositiveFactor(n: real, x: real)
    requires n > 0.0 && n * x >= 0.0
    ensures x >= 0.0
  {
  }

  /** The mean lies between any bounds of the scores, so compound scores in
      [-1, 1] average to a value in [-1, 1]. */
  lemma {:induction false} AverageWithinBounds(xs: seq<real>, lo: real, hi: real)
    requires |xs| > 0
    requires forall k :: 0 <= k < |xs| ==> lo <= xs[k] <= hi
    ensures lo <= Average(xs) <= hi
  {
    SumBounds(xs, lo, hi);
    var n := |xs| as real;
    var r := Average(xs);
    assert r * n == Sum(xs);
    assert n * (r - lo) >= 0.0 && n * (hi - r) >= 0.0;
    PositiveFactor(n, r - lo);
    PositiveFactor(n, hi - r);
  }

  /** Segmentation followed by scoring: the points are the sentences' start
      times in order, each with its sentence's score, and the average is 0
      exactly when no sentence was produced or the scores sum to 0. */
  method Analyze(ws: seq<Word>, score: string -> real) returns (series: Series, average: real)
    ensures var sentences := CollectSentences(ws);
      && |series.timestamps| == |sentences| && |series.sentiments| == |sentences|
      && (forall n :: 0 <= n < |sentences| ==>
            series.timestamps[n] == sentences[n].start && series.sentiments[n] == score(sentences[n].text))
    ensures |series.sentiments| == 0 ==> average == 0.0
    ensures |series.sentiments| > 0 ==> average * (|series.sentiments| as real) == Sum(series.sentiments)
  {
    var sentences := CollectSentencesLoop(ws);
    series := PairScores(sentences, score);
    average := Average(series.sentiments);
  }
}
