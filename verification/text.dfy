/** The string operations the segmenter applies to each transcribed word:
    Python's `str.strip()`, the upper-case test of a first character, and
    `" ".join(...)`. Whitespace and letter case are restricted to ASCII. */
module Text {

  /** Python's `str.isspace` on ASCII characters: tab, line feed, vertical tab,
      form feed, carriage return (0x09-0x0D), the four information separators
      (0x1C-0x1F) and the space (0x20). */
  predicate IsSpace(c: char) {
    9 <= c as int <= 13 || 28 <= c as int <= 32
  }

  /** Python's `str.isupper` on a single ASCII character. */
  predicate IsUpper(c: char) {
    'A' <= c <= 'Z'
  }

  predicate AllSpaces(s: string) {
    forall k :: 0 <= k < |s| ==> IsSpace(s[k])
  }

  /** A string with no whitespace at either end: what `strip` leaves behind. */
  predicate Trimmed(t: string) {
    t == [] || (!IsSpace(t[0]) && !IsSpace(t[|t| - 1]))
  }

  /** The number of whitespace characters at the front of `s`. */
  function LeadingSpaces(s: string): (n: nat)
    ensures n <= |s|
    ensures forall k :: 0 <= k < n ==> IsSpace(s[k])
    ensures n < |s| ==> !IsSpace(s[n])
  {
    if |s| > 0 && IsSpace(s[0]) then 1 + LeadingSpaces(s[1..]) else 0
  }

  /** The index just past the last non-whitespace character of `s` at or
      after `lo`, or `lo` when there is none. */
  function ContentEnd(s: string, lo: nat): (n: nat)
    requires lo <= |s|
    ensures lo <= n <= |s|
    ensures forall k :: n <= k < |s| ==> IsSpace(s[k])
    ensures lo < n ==> !IsSpace(s[n - 1])
  {
    if |s| > lo && IsSpace(s[|s| - 1]) then ContentEnd(s[..|s| - 1], lo) else |s|
  }

  /** Python's `str.strip()` with no argument. */
  function Strip(s: string): (r: string)
    ensures Trimmed(r)
    ensures r == [] <==> AllSpaces(s)
    ensures |r| <= |s|
  {
    var lo := LeadingSpaces(s);
    s[lo..ContentEnd(s, lo)]
  }

  /** Stripping undoes any whitespace padding around a trimmed string. */
  lemma {:induction false} StripPadded(pre: string, t: string, post: string)
    requires AllSpaces(pre) && AllSpaces(post) && Trimmed(t)
    ensures Strip(pre + t + post) == t
  {
    var s := pre + t + post;
    if t == [] {
      assert AllSpaces(s) by {
        forall k | 0 <= k < |s| ensures IsSpace(s[k]) {
          if k < |pre| { assert s[k] == pre[k]; } else { assert s[k] == post[k - |pre|]; }
        }
      }
    } else {
      var lo := LeadingSpaces(s);
      assert s[|pre|] == t[0];
      assert lo == |pre|;
      var hi := ContentEnd(s, lo);
      assert s[|pre| + |t| - 1] == t[|t| - 1];
      assert hi == |pre| + |t|;
      assert s[lo..hi] == t;
    }
  }

  /** A string without whitespace at either end is left alone by stripping. */
  lemma {:induction false} StripTrimmed(t: string)
    requires Trimmed(t)
    ensures Strip(t) == t
  {
    StripPadded([], t, []);
    assert [] + t + [] == t;
  }

  /** Stripping twice is the same as stripping once. */
  lemma {:induction false} StripIdempotent(s: string)
    ensures Strip(Strip(s)) == Strip(s)
  {
    StripPadded([], Strip(s), []);
    assert [] + Strip(s) + [] == Strip(s);
  }

  /** Python's `" ".join(ts)`. */
  function Join(ts: seq<string>): string
  {
    if |ts| == 0 then []
    else if |ts| == 1 then ts[0]
    else ts[0] + " " + Join(ts[1..])
  }

  /** `text` begins with the whole word `w`: it is `w`, or `w` followed by the separator. */
  predicate BeginsWithWord(text: string, w: string) {
    text == w || w + " " <= text
  }

  /** A joined text begins with its first word. */
  lemma {:induction false} JoinBeginsWithFirst(ts: seq<string>)
    requires |ts| > 0
    ensures BeginsWithWord(Join(ts), ts[0])
  {
    if |ts| > 1 {
      assert Join(ts) == (ts[0] + " ") + Join(ts[1..]);
    }
  }

  /** Joining two non-empty lists is joining each and putting one separator between. */
  lemma {:induction false} JoinAppend(a: seq<string>, b: seq<string>)
    requires |a| > 0 && |b| > 0
    ensures Join(a + b) == Join(a) + " " + Join(b)
  {
    if |a| == 1 {
      assert (a + b)[1..] == b;
    } else {
      assert (a + b)[1..] == a[1..] + b;
      JoinAppend(a[1..], b);
    }
  }
}
