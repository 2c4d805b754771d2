/** Which parts of an accepted quote are really found in the chunk. */
module QuoteParts {
  import opened Texts
  import opened Quotes

  // ------------------------------------------------------------------ normal forms

  predicate Plain(c: char) { IsAlphanumeric(c) || c == ' ' }

  /** Nothing but letters, digits and single blanks. */
  predicate Tidy(text: string) {
    && (forall k :: 0 <= k < |text| ==> Plain(text[k]))
    && (forall k :: 0 < k < |text| ==> !(text[k - 1] == ' ' && text[k] == ' '))
  }

  predicate Normal(text: string) {
    Tidy(text) && Trimmed(text)
  }

  lemma AddedIsTidy(text: string, c: char)
    requires Tidy(text)
    ensures Tidy(Added(text, Blanked(c)))
  {
    BlankedIsPlain(c);
    hide Blanked;
  }

  lemma BlankedIsPlain(c: char)
    ensures IsSpace(Blanked(c)) || Plain(Blanked(c))
  {
  }

  lemma {:induction false} SqueezedIsTidy(text: string)
    ensures Tidy(Squeezed(Mapped(text)))
  {
    if text != "" {
      SqueezedIsTidy(text[..|text| - 1]);
      SqueezedLast(text);
      AddedIsTidy(Squeezed(Mapped(text[..|text| - 1])), text[|text| - 1]);
      hide Squeezed;
      hide Mapped;
      hide Tidy;
      hide Added;
    }
  }

  lemma CutIsTidy(text: string, cut: string)
    requires Tidy(text) && Contains(text, cut)
    ensures Tidy(cut)
  {
    var a, b := Around(text, cut);
    assert forall k :: 0 <= k < |cut| ==> cut[k] == text[|a| + k];
  }

  lemma NormIsNormal(text: string)
    ensures Normal(Norm(text))
  {
    SqueezedIsTidy(text);
    StripTrims(Squeezed(Mapped(text)));
    CutIsTidy(Squeezed(Mapped(text)), Norm(text));
    hide Tidy;
    hide Squeezed;
    hide Strip;
  }

  lemma {:induction false} TidyIsMapped(text: string)
    requires Tidy(text)
    ensures Mapped(text) == text
  {
    if text != "" {
      TidyIsMapped(text[..|text| - 1]);
    }
  }

  lemma {:induction false} TidyIsSqueezed(text: string)
    requires Tidy(text)
    ensures Squeezed(text) == text
  {
    if text != "" {
      var n := |text| - 1;
      TidyIsSqueezed(text[..n]);
      assert text == text[..n] + [text[n]];
    }
  }

  /** A text in normal form is its own normal form. */
  lemma NormalIsNorm(text: string)
    requires Normal(text)
    ensures Norm(text) == text
  {
    TidyIsMapped(text);
    TidyIsSqueezed(text);
    hide Mapped;
    hide Squeezed;
  }

  lemma NormalsJoin(a: string, c: char, b: string)
    requires Normal(a) && Normal(b) && IsAlphanumeric(c)
    ensures Normal(a + [c] + b)
  {
  }

  // ------------------------------------------------------------------ a text with the longer parts only

  /** What occurs in two texts around a character contains it or occurs in one of them. */
  lemma OccursInOne(a: string, c: char, b: string, part: string)
    requires Contains(a + [c] + b, part)
    ensures Contains(a, part) || Contains(b, part) || c in part
  {
    var text := a + [c] + b;
    var i :| 0 <= i <= |text| && OccursAt(text, part, i);
    if i + |part| <= |a| {
      forall k | 0 <= k < |part| ensures a[i + k] == part[k] {
        assert text[i + k] == part[k];
      }
      assert OccursAt(a, part, i);
    } else if i <= |a| {
      assert text[i + (|a| - i)] == part[|a| - i];
    } else {
      var j := i - |a| - 1;
      forall k | 0 <= k < |part| ensures b[j + k] == part[k] {
        assert text[i + k] == part[k];
      }
      assert OccursAt(b, part, j);
    }
  }

  lemma ContainsStart(a: string, b: string, part: string)
    requires Contains(a, part)
    ensures Contains(a + b, part)
  {
    var x, y := Around(a, part);
    assert a + b == x + part + (y + b);
    ContainsMiddle(x, part, y + b);
  }

  lemma ContainsOn(a: string, b: string, part: string)
    requires Contains(a, b) && Contains(b, part)
    ensures Contains(a, part)
  {
    var x, y := Around(a, b);
    var v, w := Around(b, part);
    assert a == (x + v) + part + (w + y);
    ContainsMiddle(x + v, part, w + y);
  }

  /** The normal forms of the parts, one after another. */
  function Joined(parts: seq<string>, c: char): string
    requires parts != []
  {
    var n := |parts| - 1;
    if n == 0 then Norm(parts[0]) else Joined(parts[..n], c) + [c] + Norm(parts[n])
  }

  lemma {:induction false} JoinedIsNormal(parts: seq<string>, c: char)
    requires parts != [] && IsAlphanumeric(c)
    ensures Normal(Joined(parts, c))
  {
    var n := |parts| - 1;
    NormIsNormal(parts[n]);
    hide Norm;
    hide Normal;
    if n > 0 {
      JoinedIsNormal(parts[..n], c);
      NormalsJoin(Joined(parts[..n], c), c, Norm(parts[n]));
    }
  }

  lemma {:induction false} JoinedContains(parts: seq<string>, c: char, k: nat)
    requires k < |parts|
    ensures Contains(Joined(parts, c), Norm(parts[k]))
  {
    var n := |parts| - 1;
    hide Norm;
    hide Contains;
    if n == 0 {
      ContainsMiddle("", Norm(parts[0]), "");
      assert "" + Norm(parts[0]) + "" == Norm(parts[0]);
    } else if k < n {
      JoinedContains(parts[..n], c, k);
      ContainsStart(Joined(parts[..n], c), [c] + Norm(parts[n]), Norm(parts[k]));
      assert Joined(parts, c) == Joined(parts[..n], c) + ([c] + Norm(parts[n]));
    } else {
      var before := Joined(parts[..n], c) + [c];
      ContainsMiddle(before, Norm(parts[n]), "");
      assert before + Norm(parts[n]) + "" == Joined(parts, c);
    }
  }

  lemma {:induction false} JoinedMisses(parts: seq<string>, c: char, part: string)
    requires parts != [] && c !in part && forall k :: 0 <= k < |parts| ==> !Contains(Norm(parts[k]), part)
    ensures !Contains(Joined(parts, c), part)
  {
    var n := |parts| - 1;
    hide Norm;
    hide Contains;
    if n > 0 {
      JoinedMisses(parts[..n], c, part);
      if Contains(Joined(parts, c), part) {
        OccursInOne(Joined(parts[..n], c), c, Norm(parts[n]), part);
      }
    }
  }

  predicate Distinct(letters: string) {
    forall j, k :: 0 <= j < k < |letters| ==> letters[j] != letters[k]
  }

  lemma {:induction false} MissingLetter(letters: string, text: string) returns (c: char)
    requires Distinct(letters) && |text| < |letters|
    ensures c in letters && c !in text
  {
    if text == "" {
      c := letters[0];
    } else {
      var n := |text| - 1;
      if k :| 0 <= k < |letters| && letters[k] == text[n] {
        var others := letters[..k] + letters[k + 1..];
        assert forall j :: 0 <= j < |others| ==> others[j] == letters[if j < k then j else j + 1];
        c := MissingLetter(others, text[..n]);
      } else {
        c := MissingLetter(letters, text[..n]);
      }
      assert text == text[..n] + [text[n]];
    }
  }

  /** A letter that a short text does not contain. */
  lemma ForeignLetter(text: string) returns (c: char)
    requires |text| < MIN_LENGTH
    ensures IsAlphanumeric(c) && c !in text
  {
    var letters := seq(MIN_LENGTH, i requires 0 <= i < MIN_LENGTH => (97 + i) as char);
    assert forall k :: 0 <= k < |letters| ==> letters[k] as int == 97 + k;
    c := MissingLetter(letters, text);
  }

  // ------------------------------------------------------------------ every part

  /** The quote is accepted as exact in the chunk, and so is everything that was asked for. */
  ghost predicate EveryPartFound(quote: string) {
    forall chunk, ratio: Similarity | Judged(quote, Norm(chunk), ratio) == Exact :: AllPartsIn(quote, Norm(chunk))
  }

  predicate AllPartsIn(quote: string, text: string) {
    forall p :: p in Split(quote) ==> Found(p, text)
  }

  /** None of the parts is long enough to be looked for by itself, or each part that is not is repeated in one that is. */
  predicate ShortPartsRepeat(quote: string) {
    var long := LongOnes(Split(quote));
    long == [] || forall p :: p in Split(quote) && |Norm(p)| < MIN_LENGTH ==> RepeatedIn(long, p)
  }

  predicate RepeatedIn(long: seq<string>, part: string) {
    exists k :: 0 <= k < |long| && Contains(Norm(long[k]), Norm(part))
  }

  lemma PartIsSought(quote: string, p: string, text: string)
    requires ShortPartsRepeat(quote) && p in Split(quote)
    requires AllFound(Sought(quote), |Sought(quote)|, text)
    ensures Found(p, text)
  {
    var long := LongOnes(Split(quote));
    hide Norm;
    hide Contains;
    hide Split;
    hide LongOnes;
    if long == [] {
      assert Found(Sought(quote)[0], text);
      PartFound("", quote, "", p);
      assert "" + quote + "" == quote;
      ContainsOn(text, Norm(quote), Norm(p));
    } else if p in long {
      var k :| 0 <= k < |long| && long[k] == p;
      assert Found(Sought(quote)[k], text);
    } else {
      var k :| 0 <= k < |long| && Contains(Norm(long[k]), Norm(p));
      assert Found(Sought(quote)[k], text);
      ContainsOn(text, Norm(long[k]), Norm(p));
    }
  }

  /** The text of the longer parts alone is enough for a quote. */
  lemma LongPartsSuffice(quote: string, c: char, ratio: Similarity)
    requires MIN_LENGTH <= |Norm(quote)| && LongOnes(Split(quote)) != []
    ensures Judged(quote, Joined(LongOnes(Split(quote)), c), ratio) == Exact
  {
    var long := LongOnes(Split(quote));
    if Strip(quote) == "" {
      BlankNorm(quote);
    }
    forall k | 0 <= k < |long| ensures Found(long[k], Joined(long, c)) {
      JoinedContains(long, c, k);
    }
    hide Norm;
    hide Split;
    hide LongOnes;
    hide Strip;
  }

  /** A chunk with the longer parts of a quote and without a text that occurs in none of them. */
  lemma ChunkWithout(long: seq<string>, part: string) returns (chunk: string, c: char)
    requires long != [] && |part| < MIN_LENGTH && forall k :: 0 <= k < |long| ==> !Contains(Norm(long[k]), part)
    ensures chunk == Joined(long, c) == Norm(chunk) && !Contains(chunk, part)
  {
    hide Contains;
    c := ForeignLetter(part);
    chunk := Joined(long, c);
    JoinedMisses(long, c, part);
    JoinedIsNormal(long, c);
    hide Joined;
    NormalIsNorm(chunk);
  }

  lemma ShortPartMissed(quote: string)
    requires MIN_LENGTH <= |Norm(quote)| && !ShortPartsRepeat(quote)
    ensures !EveryPartFound(quote)
  {
    hide Joined;
    hide Split;
    hide LongOnes;
    hide Judged;
    hide Norm;
    hide Contains;
    var long := LongOnes(Split(quote));
    var p :| p in Split(quote) && |Norm(p)| < MIN_LENGTH && !RepeatedIn(long, p);
    var chunk, c := ChunkWithout(long, Norm(p));
    var ratio: Similarity := (x: string, y: string) => 0.0;
    LongPartsSuffice(quote, c, ratio);
    assert !Found(p, Norm(chunk));
    assert Judged(quote, Norm(chunk), ratio) == Exact && !AllPartsIn(quote, Norm(chunk));
  }

  /** Each part of a quote is said to be verified: whenever the quote is accepted as exact every one of
      its parts is found in the chunk, exactly when none of them has 15 characters, or every part that
      has not is repeated in one that has. */
  lemma EveryPartFoundExactlyWhen(quote: string)
    requires MIN_LENGTH <= |Norm(quote)|
    ensures EveryPartFound(quote) <==> ShortPartsRepeat(quote)
  {
    if ShortPartsRepeat(quote) {
      forall chunk, ratio: Similarity | Judged(quote, Norm(chunk), ratio) == Exact ensures AllPartsIn(quote, Norm(chunk)) {
        ExactMeans(quote, Norm(chunk), ratio);
        forall p | p in Split(quote) ensures Found(p, Norm(chunk)) {
          PartIsSought(quote, p, Norm(chunk));
        }
      }
      hide Norm;
      hide Judged;
    } else {
      ShortPartMissed(quote);
    }
  }

  lemma ExactMeans(quote: string, text: string, ratio: Similarity)
    requires Judged(quote, text, ratio) == Exact
    ensures AllFound(Sought(quote), |Sought(quote)|, text)
  {
    hide Sought;
    hide Norm;
    hide Strip;
  }

  // ------------------------------------------------------------------ acceptance by similarity

  predicate Accepted(verdict: Verdict) {
    verdict == Exact || verdict == Fuzzy
  }

  /** The part is in the text, or close to a stretch of its words. */
  ghost predicate Present(p: string, text: string, ratio: Similarity) {
    Found(p, text) || Close(ratio, p, text)
  }

  ghost predicate AllPartsPresent(quote: string, text: string, ratio: Similarity) {
    forall p :: p in Split(quote) ==> Present(p, text, ratio)
  }

  /** Whatever the similarity, everything that was asked for of an accepted quote is there. */
  ghost predicate EveryPartPresent(quote: string) {
    forall chunk, ratio: Similarity | Accepted(Judged(quote, Norm(chunk), ratio)) :: AllPartsPresent(quote, Norm(chunk), ratio)
  }

  /** Every part is long enough to be looked for by itself, or has nothing to look for. */
  predicate LongOrBlank(quote: string) {
    forall p :: p in Split(quote) ==> MIN_LENGTH <= |Norm(p)| || Norm(p) == ""
  }

  /** What an acceptance, exact or by similarity, has looked for: the longer parts, or the whole quote. */
  lemma AcceptedMeans(quote: string, text: string, ratio: Similarity)
    requires MIN_LENGTH <= |Norm(quote)|
    ensures Accepted(Judged(quote, text, ratio)) <==> forall k :: 0 <= k < |Sought(quote)| ==> Present(Sought(quote)[k], text, ratio)
  {
    if Strip(quote) == "" {
      BlankNorm(quote);
    }
    hide Sought;
    hide Norm;
    hide Strip;
    hide Found;
    hide Close;
  }

  lemma LongPartIsSought(quote: string, p: string) returns (k: nat)
    requires p in Split(quote) && MIN_LENGTH <= |Norm(p)|
    ensures k < |Sought(quote)| && Sought(quote)[k] == p
  {
    var long := LongOnes(Split(quote));
    assert p in long;
    k :| 0 <= k < |long| && long[k] == p;
  }

  lemma BlankIsFound(p: string, text: string)
    requires Norm(p) == ""
    ensures Found(p, text)
  {
    assert OccursAt(text, "", 0);
  }

  /** A similarity that goes by length alone. */
  const LENGTHY: Similarity := (x: string, y: string) => if MIN_LENGTH <= |x| then 1.0 else 0.0

  /** In the empty chunk it accepts exactly the long parts. */
  lemma LengthyPresent(p: string)
    ensures Present(p, Norm(""), LENGTHY) <==> MIN_LENGTH <= |Norm(p)| || Norm(p) == ""
  {
    NormOfNothing();
    hide Norm;
    var words := WordList("");
    var n := |WordList(Norm(p))|;
    NoStart(Stride(n));
    assert SimilarAt(LENGTHY, Norm(p), words, 0) <==> MIN_LENGTH <= |Norm(p)| by {
      hide Start;
    }
    if Norm(p) == "" {
      BlankIsFound(p, "");
    }
  }

  lemma NormOfNothing()
    ensures Norm("") == ""
  {
    NothingLeft();
    hide Strip;
  }

  lemma SoughtIsLong(quote: string, k: nat)
    requires MIN_LENGTH <= |Norm(quote)| && k < |Sought(quote)|
    ensures MIN_LENGTH <= |Norm(Sought(quote)[k])|
  {
    hide Norm;
    hide Split;
  }

  /** An acceptance by similarity speaks of every part of the quote exactly when each has 15 characters
      or nothing to look for: any shorter part may be missing from the chunk and like nothing in it. */
  lemma EveryPartPresentExactlyWhen(quote: string)
    requires MIN_LENGTH <= |Norm(quote)|
    ensures EveryPartPresent(quote) <==> LongOrBlank(quote)
  {
    hide Norm;
    hide Split;
    hide Sought;
    hide Judged;
    hide Present;
    if LongOrBlank(quote) {
      forall chunk, ratio: Similarity | Accepted(Judged(quote, Norm(chunk), ratio)) ensures AllPartsPresent(quote, Norm(chunk), ratio) {
        AcceptedMeans(quote, Norm(chunk), ratio);
        forall p | p in Split(quote) ensures Present(p, Norm(chunk), ratio) {
          PresentIfLongOrBlank(quote, p, Norm(chunk), ratio);
        }
      }
    } else {
      var p :| p in Split(quote) && |Norm(p)| < MIN_LENGTH && Norm(p) != "";
      forall k | 0 <= k < |Sought(quote)| ensures Present(Sought(quote)[k], Norm(""), LENGTHY) {
        SoughtIsLong(quote, k);
        LengthyPresent(Sought(quote)[k]);
      }
      AcceptedMeans(quote, Norm(""), LENGTHY);
      LengthyPresent(p);
      assert !AllPartsPresent(quote, Norm(""), LENGTHY);
    }
  }

  lemma PresentIfLongOrBlank(quote: string, p: string, text: string, ratio: Similarity)
    requires p in Split(quote) && (MIN_LENGTH <= |Norm(p)| || Norm(p) == "")
    requires forall k :: 0 <= k < |Sought(quote)| ==> Present(Sought(quote)[k], text, ratio)
    ensures Present(p, text, ratio)
  {
    if Norm(p) == "" {
      BlankIsFound(p, text);
    } else {
      var k := LongPartIsSought(quote, p);
    }
    hide Norm;
    hide Found;
    hide Close;
    hide Split;
    hide Sought;
  }
}
