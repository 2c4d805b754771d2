/** Quote verification: a quote is accepted when its normal form, or that of each of its longer
    parts, occurs in the normal form of the chunk, or comes close to a stretch of its words.
    Text is ASCII, apart from the ellipsis character; the similarity ratio is arbitrary. */
module Quotes {
  import opened Options
  import opened Texts

  // ------------------------------------------------------------------ the normal form

  function Blanked(c: char): char {
    var l := LowerChar(c);
    if IsAlphanumeric(l) || IsSpace(l) then l else ' '
  }

  /** Lower case, and blanks for everything but letters, digits and white space. */
  function Mapped(text: string): (r: string)
    ensures |r| == |text|
  {
    if text == "" then "" else Mapped(text[..|text| - 1]) + [Blanked(text[|text| - 1])]
  }

  function Added(before: string, c: char): string {
    if !IsSpace(c) then before + [c]
    else if before != "" && before[|before| - 1] == ' ' then before
    else before + " "
  }

  /** One blank for every run of white space. */
  function Squeezed(text: string): string {
    if text == "" then "" else Added(Squeezed(text[..|text| - 1]), text[|text| - 1])
  }

  function Norm(text: string): string {
    Strip(Squeezed(Mapped(text)))
  }

  predicate OccursAt(text: string, part: string, i: nat) {
    i + |part| <= |text| && forall k :: 0 <= k < |part| ==> text[i + k] == part[k]
  }

  predicate Contains(text: string, part: string) {
    exists i :: 0 <= i <= |text| && OccursAt(text, part, i)
  }

  lemma ContainsMiddle(a: string, part: string, b: string)
    ensures Contains(a + part + b, part)
  {
    assert OccursAt(a + part + b, part, |a|);
  }

  lemma Around(text: string, part: string) returns (a: string, b: string)
    requires Contains(text, part)
    ensures text == a + part + b
  {
    var i :| 0 <= i <= |text| && OccursAt(text, part, i);
    a, b := text[..i], text[i + |part|..];
    assert text[i..i + |part|] == part;
  }

  lemma {:induction false} MappedApart(a: string, b: string)
    ensures Mapped(a + b) == Mapped(a) + Mapped(b)
  {
    if b == "" {
      assert a + b == a;
    } else {
      var n := |b| - 1;
      MappedApart(a, b[..n]);
      assert (a + b)[..|a| + n] == a + b[..n];
    }
  }

  /** Squeezing what follows loses at most the blank it starts with. */
  function Following(before: string, after: string): string {
    if before != "" && before[|before| - 1] == ' ' && after != "" && after[0] == ' ' then after[1..] else after
  }

  lemma {:induction false} SqueezedApart(a: string, b: string)
    ensures Squeezed(a + b) == Squeezed(a) + Following(Squeezed(a), Squeezed(b))
  {
    if b == "" {
      assert a + b == a;
    } else {
      var n := |b| - 1;
      SqueezedApart(a, b[..n]);
      assert (a + b)[..|a| + n] == a + b[..n];
      SqueezedOne(Squeezed(a), Squeezed(b[..n]), b[n]);
      hide Added;
      hide Following;
    }
  }

  lemma SqueezedOne(s: string, t: string, c: char)
    ensures Added(s + Following(s, t), c) == s + Following(s, Added(t, c))
  {
    if t == "" {
      assert s + "" == s;
      AddedToNothing(s, c);
    } else if Following(s, t) == t {
      AddedKeepsStart(t, c);
      AddedBehind(s, t, c);
    } else if |t| == 1 {
      AddedToBlank(s, c);
      assert t == " ";
    } else {
      AddedKeepsStart(t, c);
      AddedBehind(s, t[1..], c);
      AddedToRest(t, c);
    }
  }

  lemma AddedToBlank(s: string, c: char)
    requires s != "" && s[|s| - 1] == ' '
    ensures Added(s + Following(s, " "), c) == s + Following(s, Added(" ", c))
  {
    assert s + "" == s;
    assert Following(s, " ") == "";
  }

  lemma AddedToNothing(s: string, c: char)
    ensures Added(s, c) == s + Following(s, Added("", c))
  {
    assert s + "" == s;
  }

  lemma AddedKeepsStart(t: string, c: char)
    requires t != ""
    ensures Added(t, c) != "" && Added(t, c)[0] == t[0]
  {
  }

  /** Adding to the end of a text concerns only its last part, unless that is empty. */
  lemma AddedBehind(s: string, t: string, c: char)
    requires t != ""
    ensures Added(s + t, c) == s + Added(t, c)
  {
    assert (s + t)[|s + t| - 1] == t[|t| - 1];
    assert s + t + [c] == s + (t + [c]);
  }

  lemma AddedToRest(t: string, c: char)
    requires |t| > 1
    ensures Added(t, c)[1..] == Added(t[1..], c)
  {
  }

  predicate Trimmed(text: string) {
    text != "" ==> !IsSpace(text[0]) && !IsSpace(text[|text| - 1])
  }

  /** A text cut out of another, between nothing but white space. */
  predicate CutOut(text: string, cut: string, i: nat) {
    && OccursAt(text, cut, i)
    && (forall k :: 0 <= k < |text| && (k < i || i + |cut| <= k) ==> IsSpace(text[k]))
  }

  lemma {:induction false} StripLeftCuts(text: string) returns (i: nat)
    ensures CutOut(text, StripLeft(text), i) && i + |StripLeft(text)| == |text|
    ensures StripLeft(text) != "" ==> !IsSpace(StripLeft(text)[0])
  {
    i := 0;
    if text != "" && IsSpace(text[0]) {
      i := StripLeftCuts(text[1..]);
      var cut := StripLeft(text[1..]);
      hide StripLeft;
      assert forall k :: 0 <= k < |text[1..]| ==> text[1..][k] == text[k + 1];
      i := i + 1;
      forall k | 0 <= k < i ensures IsSpace(text[k]) {
        if k > 0 {
          assert text[1..][k - 1] == text[k];
        }
      }
      forall k | 0 <= k < |cut| ensures text[i + k] == cut[k] {
        assert text[1..][i - 1 + k] == cut[k];
      }
      assert StripLeft(text) == cut by { StripLeftSpace(text); }
    }
  }

  lemma StripLeftSpace(text: string)
    requires text != "" && IsSpace(text[0])
    ensures StripLeft(text) == StripLeft(text[1..])
  {
  }

  lemma {:induction false} StripRightCuts(text: string)
    ensures CutOut(text, StripRight(text), 0)
    ensures StripRight(text) != "" ==> !IsSpace(StripRight(text)[|StripRight(text)| - 1])
  {
    if text != "" && IsSpace(text[|text| - 1]) {
      StripRightCuts(text[..|text| - 1]);
    }
  }

  lemma StripCuts(text: string) returns (i: nat)
    ensures CutOut(text, Strip(text), i) && Trimmed(Strip(text))
  {
    i := StripLeftCuts(text);
    var left := StripLeft(text);
    StripRightCuts(left);
    var cut := StripRight(left);
    hide StripLeft;
    hide StripRight;
    forall k | 0 <= k < |cut| ensures text[i + k] == cut[k] {
      assert left[k] == cut[k];
    }
    forall k | 0 <= k < |text| && (k < i || i + |cut| <= k) ensures IsSpace(text[k]) {
      if i <= k {
        assert text[i + (k - i)] == left[k - i];
      }
    }
    if cut != "" {
      assert cut[0] == left[0];
    }
  }

  /** Stripping keeps every trimmed part of a text. */
  lemma StripKeeps(text: string, part: string)
    requires Contains(text, part) && Trimmed(part)
    ensures Contains(Strip(text), part)
  {
    var i := StripCuts(text);
    hide Strip;
    var cut := Strip(text);
    if part == "" {
      assert OccursAt(cut, part, 0);
    } else {
      var p :| 0 <= p <= |text| && OccursAt(text, part, p);
      assert text[p + 0] == part[0] && text[p + (|part| - 1)] == part[|part| - 1];
      forall k | 0 <= k < |part| ensures cut[p - i + k] == part[k] {
        assert text[i + (p - i + k)] == text[p + k];
      }
      assert OccursAt(cut, part, p - i);
    }
  }

  lemma StripTrims(text: string)
    ensures Trimmed(Strip(text)) && Contains(text, Strip(text))
  {
    var i := StripCuts(text);
    hide Strip;
  }

  lemma SqueezedThree(a: string, q: string, b: string)
    ensures Squeezed(a + q + b) ==
      Squeezed(a) + Following(Squeezed(a), Squeezed(q)) + Following(Squeezed(a + q), Squeezed(b))
  {
    SqueezedApart(a, q);
    SqueezedApart(a + q, b);
    hide Squeezed;
    hide Following;
  }

  lemma ContainsBetween(a: string, u: string, b: string, part: string)
    requires Contains(u, part)
    ensures Contains(a + u + b, part)
  {
    var x, y := Around(u, part);
    hide Contains;
    assert a + u + b == (a + x) + part + (y + b);
    ContainsMiddle(a + x, part, y + b);
  }

  /** Whatever follows or precedes, the trimmed parts of a squeezed text stay. */
  lemma SqueezedKeeps(a: string, q: string, b: string, part: string)
    requires Contains(Squeezed(q), part) && Trimmed(part)
    ensures Contains(Squeezed(a + q + b), part)
  {
    hide Squeezed;
    hide Following;
    hide Contains;
    var s, t := Squeezed(a), Squeezed(q);
    SqueezedThree(a, q, b);
    FollowingKeeps(s, t, part);
    ContainsBetween(s, Following(s, t), Following(Squeezed(a + q), Squeezed(b)), part);
  }

  lemma FollowingKeeps(before: string, after: string, part: string)
    requires Contains(after, part) && Trimmed(part)
    ensures Contains(Following(before, after), part)
  {
    if part == "" {
      assert OccursAt(Following(before, after), part, 0);
    } else if Following(before, after) != after {
      var i :| 0 <= i <= |after| && OccursAt(after, part, i);
      assert after[i + 0] == part[0];
      forall k | 0 <= k < |part| ensures after[1..][i - 1 + k] == part[k] {
        assert after[i + k] == part[k];
      }
      assert OccursAt(after[1..], part, i - 1);
    }
  }

  /** The normal form of a verbatim stretch of a text occurs in the normal form of the text. */
  lemma NormKeepsInfixes(a: string, q: string, b: string)
    ensures Contains(Norm(a + q + b), Norm(q))
  {
    MappedApart(a, q);
    MappedApart(a + q, b);
    var m := Squeezed(Mapped(q));
    StripTrims(m);
    SqueezedKeeps(Mapped(a), Mapped(q), Mapped(b), Norm(q));
    StripKeeps(Squeezed(Mapped(a) + Mapped(q) + Mapped(b)), Norm(q));
  }

  // ------------------------------------------------------------------ the parts of a quote

  const ELLIPSIS: char := '\U{2026}'
  const MIN_LENGTH: nat := 15
  const MIN_RATIO: real := 0.88

  predicate IsBreak(text: string, i: nat)
    requires i < |text|
  {
    text[i] == ELLIPSIS || (i + 3 <= |text| && text[i] == '.' && text[i + 1] == '.' && text[i + 2] == '.')
  }

  /** Where the first break is, or the end of the text. */
  function FirstBreak(text: string, i: nat): (k: nat)
    requires i <= |text|
    ensures i <= k <= |text| && (k < |text| ==> IsBreak(text, k))
    ensures forall j :: i <= j < k ==> !IsBreak(text, j)
    decreases |text| - i
  {
    if i == |text| || IsBreak(text, i) then i else FirstBreak(text, i + 1)
  }

  function BreakLength(text: string, k: nat): (n: nat)
    requires k < |text| && IsBreak(text, k)
    ensures 1 <= n && k + n <= |text|
  {
    if text[k] == ELLIPSIS then 1 else 3
  }

  function Split(text: string): (parts: seq<string>)
    decreases |text|
  {
    var k := FirstBreak(text, 0);
    if k == |text| then [text] else [text[..k]] + Split(text[k + BreakLength(text, k)..])
  }

  function LongOnes(parts: seq<string>): (long: seq<string>)
    ensures forall p :: p in long <==> p in parts && MIN_LENGTH <= |Norm(p)|
  {
    if parts == [] then []
    else
      var before := LongOnes(parts[..|parts| - 1]);
      if MIN_LENGTH <= |Norm(parts[|parts| - 1])| then before + [parts[|parts| - 1]] else before
  }

  /** What is looked for in the chunk: the longer parts, or the whole quote if there are none. */
  function Sought(quote: string): (parts: seq<string>)
    ensures parts != []
  {
    var long := LongOnes(Split(quote));
    if long == [] then [quote] else long
  }

  // ------------------------------------------------------------------ words and windows

  function WordList(text: string): (words: seq<string>)
    ensures text != "" && !IsSpace(text[|text| - 1]) ==> words != []
  {
    if text == "" then []
    else
      var before, words, c := text[..|text| - 1], WordList(text[..|text| - 1]), text[|text| - 1];
      if IsSpace(c) then words
      else if before != "" && !IsSpace(before[|before| - 1]) then words[..|words| - 1] + [words[|words| - 1] + [c]]
      else words + [[c]]
  }

  function Sentence(words: seq<string>): string {
    if words == [] then "" else if |words| == 1 then words[0] else words[0] + " " + Sentence(words[1..])
  }

  function Max(a: int, b: int): int { if a < b then b else a }
  function Min(a: int, b: int): int { if a < b then a else b }

  /** How far apart the windows start, and where the last of them may start. */
  function Stride(n: nat): nat { Max(5, n / 4) }
  function LastStart(n: nat, words: nat): nat { Max(1, words - Min(n, words) + 1) }

  function Window(words: seq<string>, start: nat, n: nat): string {
    if start >= |words| then "" else Sentence(words[start..Min(start + n + 8, |words|)])
  }

  /** Arbitrary similarity of two normal texts. */
  type Similarity = (string, string) -> real

  /** Where the k-th window starts. */
  function Start(k: nat, step: nat): nat { k * step }

  /** The k-th window is similar enough to the part. */
  predicate SimilarAt(ratio: Similarity, part: string, words: seq<string>, k: nat) {
    var n := |WordList(part)|;
    Start(k, Stride(n)) < LastStart(n, |words|) && MIN_RATIO <= ratio(part, Window(words, Start(k, Stride(n)), n))
  }

  /** One of the windows the code looks at is similar enough to the part. */
  ghost predicate SimilarSomewhere(ratio: Similarity, part: string, words: seq<string>) {
    exists k: nat :: SimilarAt(ratio, part, words, k)
  }

  predicate Found(part: string, text: string) {
    Contains(text, Norm(part))
  }

  ghost predicate Close(ratio: Similarity, part: string, text: string) {
    SimilarSomewhere(ratio, Norm(part), WordList(text))
  }

  datatype Verdict = Empty | TooShort | Exact | Fuzzy | NotFound

  predicate AllFound(parts: seq<string>, n: nat, text: string)
    requires n <= |parts|
  {
    forall k :: 0 <= k < n ==> Found(parts[k], text)
  }

  ghost predicate AllClose(parts: seq<string>, n: nat, text: string, ratio: Similarity)
    requires n <= |parts|
  {
    forall k :: 0 <= k < n ==> Found(parts[k], text) || Close(ratio, parts[k], text)
  }

  /** The verdict on a quote, for the normal form of the chunk. */
  ghost function Judged(quote: string, text: string, ratio: Similarity): Verdict {
    var parts := Sought(quote);
    if Strip(quote) == "" then Empty
    else if |Norm(quote)| < MIN_LENGTH then TooShort
    else if AllFound(parts, |parts|, text) then Exact
    else if AllClose(parts, |parts|, text, ratio) then Fuzzy
    else NotFound
  }

  // ------------------------------------------------------------------ what is accepted

  lemma SplitAs(text: string)
    ensures var k := FirstBreak(text, 0);
      Split(text) == if k == |text| then [text] else [text[..k]] + Split(text[k + BreakLength(text, k)..])
  {
  }

  lemma {:induction false} PartsOccur(text: string, i: nat) returns (a: string, b: string)
    requires i < |Split(text)|
    ensures text == a + Split(text)[i] + b
    decreases |text|
  {
    SplitAs(text);
    hide Split;
    var k := FirstBreak(text, 0);
    if k == |text| {
      return "", "";
    } else if i == 0 {
      return "", text[k..];
    } else {
      var n := k + BreakLength(text, k);
      a, b := PartsOccur(text[n..], i - 1);
      assert text == text[..n] + text[n..];
      return text[..n] + a, b;
    }
  }

  lemma SqueezedLast(text: string)
    requires text != ""
    ensures Squeezed(Mapped(text)) == Added(Squeezed(Mapped(text[..|text| - 1])), Blanked(text[|text| - 1]))
  {
    var m := Mapped(text[..|text| - 1]);
    assert (m + [Blanked(text[|text| - 1])])[..|m|] == m;
  }

  lemma {:induction false} BlankSqueezed(text: string)
    requires forall k :: 0 <= k < |text| ==> IsSpace(text[k])
    ensures Squeezed(Mapped(text)) == "" || Squeezed(Mapped(text)) == " "
  {
    if text != "" {
      SqueezedLast(text);
      BlankSqueezed(text[..|text| - 1]);
      assert IsSpace(Blanked(text[|text| - 1]));
      hide Squeezed;
      hide Mapped;
      hide Blanked;
    }
  }

  lemma NothingLeft()
    ensures Strip("") == "" && Strip(" ") == ""
  {
    assert StripLeft(" ") == StripLeft("");
  }

  /** A blank text has no normal form. */
  lemma BlankNorm(text: string)
    requires Strip(text) == ""
    ensures Norm(text) == ""
  {
    var i := StripCuts(text);
    BlankSqueezed(text);
    NothingLeft();
    hide Strip;
    hide Squeezed;
    hide Mapped;
  }

  lemma PartFound(a: string, quote: string, b: string, part: string)
    requires part in Split(quote)
    ensures Found(part, Norm(a + quote + b)) && |Norm(part)| <= |Norm(quote)|
  {
    hide Split;
    var i :| 0 <= i < |Split(quote)| && Split(quote)[i] == part;
    var c, d := PartsOccur(quote, i);
    assert a + quote + b == (a + c) + part + (d + b);
    NormKeepsInfixes(a + c, part, d + b);
    NormKeepsInfixes(c, part, d);
    hide Norm;
  }

  /** Completeness: any verbatim stretch of a chunk with a normal form of at least 15 characters is
      accepted as exact, whatever dots it contains and whatever the similarity. */
  lemma VerbatimAccepted(a: string, quote: string, b: string, ratio: Similarity)
    requires MIN_LENGTH <= |Norm(quote)|
    ensures Judged(quote, Norm(a + quote + b), ratio) == Exact
  {
    if Strip(quote) == "" {
      BlankNorm(quote);
    }
    NormKeepsInfixes(a, quote, b);
    forall p | p in Sought(quote) ensures Found(p, Norm(a + quote + b)) {
      if p in Split(quote) {
        PartFound(a, quote, b, p);
      }
    }
    hide Norm;
  }

  lemma {:induction false} BreakAfter(q: string, rest: string, i: nat)
    requires i <= |q| && FirstBreak(q + "...", i) == |q|
    ensures FirstBreak(q + "..." + rest, i) == |q|
    decreases |q| - i
  {
    var text, short := q + "..." + rest, q + "...";
    assert forall k :: 0 <= k < |short| ==> text[k] == short[k];
    if i < |q| {
      BreakAfter(q, rest, i + 1);
    }
  }

  /** Beside a part that is long enough, nothing of a short tail is looked for. */
  lemma OnlyTheLong(quote: string, tail: string, whole: string)
    requires Split(whole) == [quote] + Split(tail) && |Norm(tail)| < MIN_LENGTH <= |Norm(quote)|
    ensures forall p :: p in Sought(whole) ==> p == quote
  {
    hide Split;
    hide Norm;
    assert quote in Split(whole);
    assert quote in LongOnes(Split(whole));
    forall p | p in LongOnes(Split(whole)) ensures p == quote {
      if p in Split(tail) {
        PartFound("", tail, "", p);
      }
    }
  }

  /** Parts below 15 characters are not looked for beside a longer one: anything short may be added
      behind three dots that are the first break, and the quote is still accepted as exact. */
  lemma ShortTailUnchecked(a: string, quote: string, b: string, tail: string, ratio: Similarity)
    requires FirstBreak(quote + "...", 0) == |quote|
    requires |Norm(tail)| < MIN_LENGTH <= |Norm(quote)|
    ensures Judged(quote + "..." + tail, Norm(a + quote + b), ratio) == Exact
  {
    hide FirstBreak;
    hide Split;
    hide Norm;
    hide Strip;
    hide Contains;
    var text, whole := Norm(a + quote + b), quote + "..." + tail;
    NormKeepsInfixes(a, quote, b);
    NormKeepsInfixes("", quote, "..." + tail);
    assert "" + quote + ("..." + tail) == whole;
    ContainedIsShorter(Norm(whole), Norm(quote));
    if Strip(whole) == "" {
      BlankNorm(whole);
    }
    BreakAfter(quote, tail, 0);
    SplitAtDots(quote, tail);
    OnlyTheLong(quote, tail, whole);
    hide Sought;
  }

  lemma ContainedIsShorter(text: string, part: string)
    requires Contains(text, part)
    ensures |part| <= |text|
  {
  }

  lemma SplitAtDots(quote: string, tail: string)
    requires FirstBreak(quote + "..." + tail, 0) == |quote|
    ensures Split(quote + "..." + tail) == [quote] + Split(tail)
  {
    var whole := quote + "..." + tail;
    SplitAs(whole);
    assert whole[|quote|] == '.';
    assert whole[..|quote|] == quote && whole[|quote| + 3..] == tail;
  }

  // ------------------------------------------------------------------ the code itself

  lemma StartsGrow(j: nat, k: nat, step: nat)
    requires j <= k
    ensures Start(j, step) <= Start(k, step)
    ensures Start(k + 1, step) == Start(k, step) + step
  {
    assert (k - j) * step >= 0;
  }

  /** The best similarity of a part with the windows of the chunk; the search ends early. */
  method BestMatch(part: string, words: seq<string>, ratio: Similarity) returns (best: real)
    ensures MIN_RATIO <= best <==> SimilarSomewhere(ratio, part, words)
  {
    hide Start;
    var n := |WordList(part)|;
    var step, end := Stride(n), LastStart(n, |words|);
    best := 0.0;
    var start := 0;
    ghost var k: nat := 0;
    assert start == Start(k, step) by { NoStart(step); }
    while start < end
      invariant start == Start(k, step)
      invariant best < MIN_RATIO
      invariant forall j :: 0 <= j < k ==> !SimilarAt(ratio, part, words, j)
    {
      var r := ratio(part, Window(words, start, n));
      if best < r {
        best := r;
      }
      if MIN_RATIO <= best {
        assert SimilarAt(ratio, part, words, k);
        return;
      }
      StartsGrow(k, k, step);
      start := start + step;
      k := k + 1;
    }
    forall j: nat ensures !SimilarAt(ratio, part, words, j) {
      if k <= j {
        StartsGrow(k, j, step);
      }
    }
  }

  lemma NoStart(step: nat)
    ensures Start(0, step) == 0
  {
  }

  /** Looks for the parts one by one. */
  method MatchParts(parts: seq<string>, text: string, ratio: Similarity) returns (verdict: Verdict)
    ensures verdict == if AllFound(parts, |parts|, text) then Exact else if AllClose(parts, |parts|, text, ratio) then Fuzzy else NotFound
  {
    hide Norm;
    hide SimilarSomewhere;
    hide Contains;
    hide WordList;
    var words := WordList(text);
    var matchedExact, bestOverall := true, 1.0;
    for i := 0 to |parts|
      invariant matchedExact <==> AllFound(parts, i, text)
      invariant MIN_RATIO <= bestOverall <==> AllClose(parts, i, text, ratio)
    {
      var part := Norm(parts[i]);
      if !Contains(text, part) {
        matchedExact := false;
        var best := BestMatch(part, words, ratio);
        if best < bestOverall {
          bestOverall := best;
        }
      }
    }
    if matchedExact {
      return Exact;
    }
    return if MIN_RATIO <= bestOverall then Fuzzy else NotFound;
  }

  method VerifyQuote(quote: string, chunk: string, ratio: Similarity) returns (verdict: Verdict)
    ensures verdict == Judged(quote, Norm(chunk), ratio)
  {
    hide Norm;
    hide Strip;
    hide Sought;
    hide AllFound;
    hide AllClose;
    if Strip(quote) == "" {
      return Empty;
    }
    if |Norm(quote)| < MIN_LENGTH {
      return TooShort;
    }
    verdict := MatchParts(Sought(quote), Norm(chunk), ratio);
  }
}
