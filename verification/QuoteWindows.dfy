/** What is looked for where: the parts of a quote are what stands between its breaks, and the windows
    of a chunk reach every stretch of as many words as a part has, unless the part is long. */
module QuoteWindows {
  import opened Texts
  import opened Quotes

  // ------------------------------------------------------------------ parts

  const DOTS := "..."

  /** Neither three dots nor an ellipsis. */
  predicate Unbroken(part: string) {
    forall i :: 0 <= i < |part| ==> part[i] != '\U{2026}' && !(i + 3 <= |part| && part[i..i + 3] == DOTS)
  }

  predicate AreBreaks(breaks: seq<string>) {
    forall k :: 0 <= k < |breaks| ==> breaks[k] == DOTS || breaks[k] == ['\U{2026}']
  }

  /** Parts with breaks between them. */
  function Rejoined(parts: seq<string>, breaks: seq<string>): string
    requires |parts| == |breaks| + 1
  {
    if breaks == [] then parts[0] else parts[0] + breaks[0] + Rejoined(parts[1..], breaks[1..])
  }

  lemma BreakSeen(text: string, k: nat, i: nat)
    requires i < k <= |text|
    ensures var part := text[..k]; part[i] == '\U{2026}' || (i + 3 <= k && part[i..i + 3] == DOTS) ==> IsBreak(text, i)
  {
    var part := text[..k];
    if i + 3 <= k && part[i..i + 3] == DOTS {
      var dots := part[i..i + 3];
      assert part[i] == dots[0] && part[i + 1] == dots[1] && part[i + 2] == dots[2];
    }
  }

  lemma FirstPart(text: string)
    ensures Unbroken(text[..FirstBreak(text, 0)])
  {
    var part := text[..FirstBreak(text, 0)];
    forall i | 0 <= i < |part| ensures part[i] != '\U{2026}' && !(i + 3 <= |part| && part[i..i + 3] == DOTS) {
      BreakSeen(text, |part|, i);
    }
  }

  /** A quote is its parts with three dots or an ellipsis between them, and there is none within a part. */
  lemma {:induction false} SplitMeans(text: string) returns (breaks: seq<string>)
    ensures |Split(text)| == |breaks| + 1 && AreBreaks(breaks) && text == Rejoined(Split(text), breaks)
    ensures forall k :: 0 <= k < |Split(text)| ==> Unbroken(Split(text)[k])
    decreases |text|
  {
    var k := FirstBreak(text, 0);
    SplitAs(text);
    FirstPart(text);
    hide Split;
    hide FirstBreak;
    hide Unbroken;
    if k == |text| {
      assert text[..k] == text;
      return [];
    }
    var n := k + BreakLength(text, k);
    var rest := SplitMeans(text[n..]);
    BreakIs(text, k);
    breaks := [text[k..n]] + rest;
    RejoinedMore(text, k, n, Split(text[n..]), rest);
  }

  lemma BreakIs(text: string, k: nat)
    requires k < |text| && IsBreak(text, k)
    ensures var first := text[k..k + BreakLength(text, k)]; first == DOTS || first == [ELLIPSIS]
  {
  }

  lemma RejoinedMore(text: string, k: nat, n: nat, parts: seq<string>, breaks: seq<string>)
    requires k <= n <= |text| && |parts| == |breaks| + 1 && text[n..] == Rejoined(parts, breaks)
    ensures Rejoined([text[..k]] + parts, [text[k..n]] + breaks) == text
  {
    hide Rejoined;
    RejoinedFrom(text[..k], text[k..n], parts, breaks);
    CutInThree(text, k, n);
  }

  lemma RejoinedFrom(part: string, first: string, parts: seq<string>, breaks: seq<string>)
    requires |parts| == |breaks| + 1
    ensures Rejoined([part] + parts, [first] + breaks) == part + first + Rejoined(parts, breaks)
  {
    assert ([part] + parts)[1..] == parts && ([first] + breaks)[1..] == breaks;
  }

  lemma CutInThree(text: string, k: nat, n: nat)
    requires k <= n <= |text|
    ensures text[..k] + text[k..n] + text[n..] == text
  {
  }

  // ------------------------------------------------------------------ windows

  /** The k-th window is looked at, and has the n words from the given place on. */
  predicate Reaches(words: nat, n: nat, k: nat, at: nat) {
    && Start(k, Stride(n)) < LastStart(n, words)
    && Start(k, Stride(n)) <= at && at + n <= Start(k, Stride(n)) + n + 8
  }

  /** The stretch is in one of the windows. */
  ghost predicate Reached(words: nat, n: nat, at: nat) {
    exists k: nat :: Reaches(words, n, k, at)
  }

  ghost predicate AllReached(n: nat) {
    forall words: nat, at: nat | at + n <= words :: Reached(words, n, at)
  }

  lemma Divides(at: nat, step: nat)
    requires 0 < step
    ensures Start(at / step, step) <= at < Start(at / step, step) + step
  {
    assert at == step * (at / step) + at % step;
  }

  lemma NextStart(k: nat, step: nat)
    ensures Start(0, step) == 0
    ensures 1 <= k ==> step <= Start(k, step)
  {
    if 1 <= k {
      assert (k - 1) * step >= 0;
    }
  }

  /** The windows start so far apart that they reach every stretch of a chunk exactly for parts of fewer
      than 40 words; of longer ones a verbatim stretch may be in none of them. */
  lemma AllReachedExactlyWhen(n: nat)
    ensures AllReached(n) <==> n < 40
  {
    hide Start;
    if n < 40 {
      forall words: nat, at: nat | at + n <= words ensures Reached(words, n, at) {
        Divides(at, Stride(n));
        assert Reaches(words, n, at / Stride(n), at);
      }
    } else {
      var words: nat, at: nat := n + 9, 9;
      forall k: nat ensures !Reaches(words, n, k, at) {
        NextStart(k, Stride(n));
      }
      assert !Reached(words, n, at);
    }
  }

  lemma {:induction false} SentenceAdds(a: seq<string>, b: seq<string>)
    requires a != [] && b != []
    ensures Sentence(a + b) == Sentence(a) + " " + Sentence(b)
  {
    if |a| == 1 {
      assert (a + b)[1..] == b;
    } else {
      SentenceAdds(a[1..], b);
      assert (a + b)[1..] == a[1..] + b;
    }
  }

  lemma SentenceContains(a: seq<string>, b: seq<string>, c: seq<string>)
    requires b != []
    ensures Contains(Sentence(a + b + c), Sentence(b))
  {
    hide Sentence;
    hide Contains;
    var left := if a == [] then "" else Sentence(a) + " ";
    var right := if c == [] then "" else " " + Sentence(c);
    if a != [] {
      SentenceAdds(a, b);
    } else {
      assert a + b == b;
    }
    if c != [] {
      SentenceAdds(a + b, c);
    } else {
      assert a + b + c == a + b;
    }
    assert Sentence(a + b + c) == left + Sentence(b) + right;
    ContainsMiddle(left, Sentence(b), right);
  }

  lemma Slices(words: seq<string>, i: nat, j: nat, k: nat, l: nat)
    requires i <= j <= k <= l <= |words|
    ensures words[i..l] == words[i..j] + words[j..k] + words[k..l]
  {
  }

  /** A window that reaches a stretch contains it. */
  lemma ReachedIsContained(words: seq<string>, n: nat, k: nat, at: nat)
    requires Reaches(|words|, n, k, at) && at + n <= |words| && 0 < n
    ensures Contains(Window(words, Start(k, Stride(n)), n), Sentence(words[at..at + n]))
  {
    hide Start;
    hide Sentence;
    hide Contains;
    var start := Start(k, Stride(n));
    var end := Min(start + n + 8, |words|);
    Slices(words, start, at, at + n, end);
    SentenceContains(words[start..at], words[at..at + n], words[at + n..end]);
  }

  // ------------------------------------------------------------------ verdicts

  predicate IsBlank(text: string) {
    forall k :: 0 <= k < |text| ==> IsSpace(text[k])
  }

  lemma BlankExactlyWhen(text: string)
    ensures Strip(text) == "" <==> IsBlank(text)
  {
    var i := StripCuts(text);
    var cut := Strip(text);
    hide Strip;
    if cut != "" {
      assert text[i + 0] == cut[0];
    }
  }

  /** Quotes that are not looked for: blank ones, and those whose normal form has fewer than 15 characters. */
  lemma UnsoughtExactlyWhen(quote: string, chunk: string, ratio: Similarity)
    ensures Judged(quote, Norm(chunk), ratio) == Empty <==> IsBlank(quote)
    ensures Judged(quote, Norm(chunk), ratio) == TooShort <==> !IsBlank(quote) && |Norm(quote)| < 15
  {
    BlankExactlyWhen(quote);
    hide Strip;
    hide Norm;
    hide Sought;
    hide IsBlank;
  }

  lemma FirstWindow(part: string, words: seq<string>, x: real)
    ensures var ratio: Similarity := (a: string, b: string) => x;
      SimilarSomewhere(ratio, part, words) <==> 0.88 <= x
  {
    var ratio: Similarity := (a: string, b: string) => x;
    NoStart(Stride(|WordList(part)|));
    hide Start;
    hide WordList;
    hide Sentence;
    if 0.88 <= x {
      assert SimilarAt(ratio, part, words, 0);
    }
  }

  /** Whatever the quote and the chunk: by a similarity that is the same everywhere a quote that is looked
      for and is not found word for word is accepted exactly from 0.88 on. */
  lemma AcceptedFrom88(quote: string, chunk: string, x: real)
    requires 15 <= |Norm(quote)|
    ensures var ratio: Similarity := (a: string, b: string) => x;
      && Judged(quote, Norm(chunk), ratio) in {Exact, Fuzzy, NotFound}
      && (Judged(quote, Norm(chunk), ratio) != Exact ==> (Judged(quote, Norm(chunk), ratio) == Fuzzy <==> 0.88 <= x))
  {
    var ratio: Similarity := (a: string, b: string) => x;
    if Strip(quote) == "" {
      BlankNorm(quote);
    }
    hide Norm;
    hide Strip;
    hide Sought;
    hide Contains;
    hide SimilarSomewhere;
    hide WordList;
    var parts, text := Sought(quote), Norm(chunk);
    forall k | 0 <= k < |parts| ensures Close(ratio, parts[k], text) <==> 0.88 <= x {
      FirstWindow(Norm(parts[k]), WordList(text), x);
    }
  }
}
