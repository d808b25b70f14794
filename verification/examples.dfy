/** Worked inputs: what the segmenter and the average give on small transcripts. */
module Examples {
  import opened Options
  import opened Text
  import opened Segmenter
  import opened Aggregator

  /** Two capitalised words make two sentences; the first one's end is the
      end of the word that closed it, "World". */
  lemma {:induction false} HelloWorld()
    ensures CollectSentences([Word("Hello", Some(0.0), Some(0.4)), Word("World", Some(0.4), Some(0.8))])
         == [Segment(0.0, Some(0.8), "Hello"), Segment(0.4, Some(0.8), "World")]
  {
    StripTrimmed("Hello");
    StripTrimmed("World");
    var ws := [Word("Hello", Some(0.0), Some(0.4)), Word("World", Some(0.4), Some(0.8))];
    assert ws[..1][..0] == [];
    assert ws[..2][..1] == ws[..1];
    assert ws[..2] == ws;
    assert Run(Init, ws[..1]) == State([], ["Hello"], Some(0.0), Some(0.4));
    assert Run(Init, ws) == State([Segment(0.0, Some(0.8), "Hello")], ["World"], Some(0.4), Some(0.8));
  }

  /** An opener without an end time leaves the last end time as it was, so
      the sentence it closes ends at the previous word's end. */
  lemma {:induction false} OpenerWithoutEnd()
    ensures CollectSentences([Word("Hello", Some(0.0), Some(0.4)), Word("World", Some(0.4), None)])
         == [Segment(0.0, Some(0.4), "Hello"), Segment(0.4, Some(0.4), "World")]
  {
    StripTrimmed("Hello");
    StripTrimmed("World");
    var ws := [Word("Hello", Some(0.0), Some(0.4)), Word("World", Some(0.4), None)];
    assert ws[..1][..0] == [];
    assert ws[..2][..1] == ws[..1];
    assert ws[..2] == ws;
    assert Run(Init, ws[..1]) == State([], ["Hello"], Some(0.0), Some(0.4));
    assert Run(Init, ws) == State([Segment(0.0, Some(0.4), "Hello")], ["World"], Some(0.4), Some(0.4));
  }

  /** "I" never opens a sentence, and words before the first opener are dropped. */
  lemma {:induction false} PronounIDoesNotOpen()
    ensures CollectSentences([Word("I", Some(0.0), Some(0.5)), Word("am", Some(0.5), Some(0.9)),
                              Word("Fine", Some(0.9), Some(1.2))])
         == [Segment(0.9, Some(1.2), "Fine")]
  {
    StripTrimmed("I");
    StripTrimmed("am");
    StripTrimmed("Fine");
    var ws := [Word("I", Some(0.0), Some(0.5)), Word("am", Some(0.5), Some(0.9)), Word("Fine", Some(0.9), Some(1.2))];
    assert ws[..1][..0] == [];
    assert ws[..2][..1] == ws[..1];
    assert ws[..3][..2] == ws[..2];
    assert ws[..3] == ws;
    assert Run(Init, ws[..1]) == State([], ["I"], None, Some(0.5));
    assert Run(Init, ws[..2]) == State([], ["I", "am"], None, Some(0.9));
    assert Run(Init, ws) == State([], ["Fine"], Some(0.9), Some(1.2));
    assert Join(["Fine"]) == "Fine";
  }

  /** A word without a start time can open a sentence that is then never emitted. */
  lemma {:induction false} OpenerWithoutStart()
    ensures CollectSentences([Word("Hi", None, Some(0.3)), Word("there", Some(0.3), Some(0.6))]) == []
  {
    StripTrimmed("Hi");
    StripTrimmed("there");
    var ws := [Word("Hi", None, Some(0.3)), Word("there", Some(0.3), Some(0.6))];
    assert ws[..1][..0] == [];
    assert ws[..2][..1] == ws[..1];
    assert ws[..2] == ws;
    assert Run(Init, ws[..1]) == State([], ["Hi"], None, Some(0.3));
    assert Run(Init, ws) == State([], ["Hi", "there"], None, Some(0.6));
  }

  /** The mean of three scores. */
  lemma {:induction false} AverageOfThree()
    ensures Average([0.5, -0.5, 1.0]) == 1.0 / 3.0
  {
    var xs := [0.5, -0.5, 1.0];
    assert xs[..2][..1] == [0.5];
    assert [0.5][..0] == [];
    assert xs[..2] == [0.5, -0.5];
    assert Sum(xs) == 1.0;
  }
}
