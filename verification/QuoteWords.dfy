/** What the normal form of a text is made of: its words, in lower case, between single blanks; so an
    exact match means that the letters and digits of a quote are those of the chunk. */
module QuoteWords {
  import opened Texts
  import opened Quotes

  // ------------------------------------------------------------------ letters, digits and words

  predicate IsWordChar(c: char) {
    '0' <= c <= '9' || 'a' <= c <= 'z' || 'A' <= c <= 'Z'
  }

  function InLowerCase(c: char): char {
    if 'A' <= c <= 'Z' then (c as int + 32) as char else c
  }

  /** The letters and digits of a text, in lower case. */
  function Letters(text: string): string {
    if text == "" then ""
    else
      var before, c := Letters(text[..|text| - 1]), text[|text| - 1];
      if IsWordChar(c) then before + [InLowerCase(c)] else before
  }

  predicate EndsInWord(text: string) {
    text != "" && IsWordChar(text[|text| - 1])
  }

  /** The runs of letters and digits of a text, in lower case. */
  function WordsOf(text: string): (words: seq<string>)
    ensures EndsInWord(text) ==> words != []
  {
    if text == "" then []
    else
      var before, c := text[..|text| - 1], text[|text| - 1];
      if !IsWordChar(c) then WordsOf(before)
      else if EndsInWord(before) then Longer(WordsOf(before), InLowerCase(c))
      else WordsOf(before) + [[InLowerCase(c)]]
  }

  /** The last word with one more character. */
  function Longer(words: seq<string>, c: char): (r: seq<string>)
    requires words != []
    ensures r != []
  {
    words[..|words| - 1] + [words[|words| - 1] + [c]]
  }

  function Concatenated(words: seq<string>): string {
    if words == [] then "" else Concatenated(words[..|words| - 1]) + words[|words| - 1]
  }

  lemma {:induction false} LettersOfWords(text: string)
    ensures Letters(text) == Concatenated(WordsOf(text))
  {
    if text != "" {
      var before := text[..|text| - 1];
      LettersOfWords(before);
      var words := WordsOf(before);
      assert (words + [[InLowerCase(text[|text| - 1])]])[..|words|] == words;
    }
  }

  // ------------------------------------------------------------------ the normal form

  lemma {:induction false} SentenceMore(words: seq<string>, word: string)
    requires words != []
    ensures Sentence(words + [word]) == Sentence(words) + " " + word
  {
    if |words| > 1 {
      SentenceMore(words[1..], word);
      assert (words + [word])[1..] == words[1..] + [word];
    } else {
      assert (words + [word])[1..] == [word];
    }
  }

  lemma {:induction false} SentenceLonger(words: seq<string>, c: char)
    requires words != []
    ensures Sentence(Longer(words, c)) == Sentence(words) + [c]
  {
    if |words| > 1 {
      SentenceLonger(words[1..], c);
      assert Longer(words, c)[1..] == Longer(words[1..], c);
    }
  }

  predicate Proper(words: seq<string>) {
    forall k :: 0 <= k < |words| ==> words[k] != "" && !IsSpace(words[k][0]) && !IsSpace(words[k][|words[k]| - 1])
  }

  lemma LongerIsProper(words: seq<string>, c: char)
    requires Proper(words) && !IsSpace(c)
    ensures words != [] ==> Proper(Longer(words, c))
    ensures Proper(words + [[c]])
  {
  }

  lemma {:induction false} WordsAreProper(text: string)
    ensures Proper(WordsOf(text))
  {
    if text != "" {
      var c := text[|text| - 1];
      WordsAreProper(text[..|text| - 1]);
      WordsMore(text);
      if IsWordChar(c) {
        CharMapped(c);
        LongerIsProper(WordsOf(text[..|text| - 1]), InLowerCase(c));
      }
      hide WordsOf;
      hide Longer;
      hide Proper;
      hide InLowerCase;
      hide Blanked;
    }
  }

  lemma {:induction false} SentenceIsTrimmed(words: seq<string>)
    requires Proper(words)
    ensures Trimmed(Sentence(words)) && (words != [] ==> Sentence(words) != "")
  {
    if |words| > 1 {
      SentenceIsTrimmed(words[1..]);
    }
  }

  predicate StartsBlank(text: string) {
    text != "" && !IsWordChar(text[0])
  }

  function Blank(b: bool): string {
    if b then " " else ""
  }

  /** Words, with a blank in front or behind where the text has more. */
  function Frame(starts: bool, words: seq<string>, inWord: bool): string {
    Blank(starts) + Sentence(words) + Blank(words != [] && !inWord)
  }

  function Framed(text: string): string {
    Frame(StartsBlank(text), WordsOf(text), EndsInWord(text))
  }

  lemma CharMapped(c: char)
    ensures IsWordChar(c) ==> Blanked(c) == InLowerCase(c) && !IsSpace(Blanked(c))
    ensures !IsWordChar(c) ==> IsSpace(Blanked(c))
  {
  }

  lemma {:induction false} SqueezedIsFramed(text: string)
    ensures Squeezed(Mapped(text)) == Framed(text)
  {
    if text != "" {
      SqueezedIsFramed(text[..|text| - 1]);
      SqueezedLast(text);
      CharMapped(text[|text| - 1]);
      hide Squeezed;
      hide Mapped;
      hide Blanked;
      FramedMore(text);
    }
  }

  lemma {:induction false} NoWordsStartBlank(text: string)
    requires text != "" && WordsOf(text) == []
    ensures StartsBlank(text)
  {
    if |text| > 1 {
      NoWordsStartBlank(text[..|text| - 1]);
    }
  }

  lemma WordsMore(text: string)
    requires text != ""
    ensures var before, c := text[..|text| - 1], text[|text| - 1];
      WordsOf(text)
      == if !IsWordChar(c) then WordsOf(before)
         else if EndsInWord(before) then Longer(WordsOf(before), InLowerCase(c))
         else WordsOf(before) + [[InLowerCase(c)]]
  {
  }

  lemma FrameWordGrows(starts: bool, words: seq<string>, c: char)
    requires words != [] && !IsSpace(c)
    ensures Frame(starts, Longer(words, c), true) == Added(Frame(starts, words, true), c)
  {
    SentenceLonger(words, c);
    hide Sentence;
    hide Longer;
  }

  lemma FrameNewWord(starts: bool, words: seq<string>, c: char)
    requires !IsSpace(c)
    ensures Frame(starts, words + [[c]], true) == Added(Frame(starts, words, false), c)
  {
    assert Sentence([]) == "" && Sentence([[c]]) == [c];
    if words != [] {
      SentenceMore(words, [c]);
    } else {
      assert words + [[c]] == [[c]];
    }
    hide Sentence;
  }

  lemma FrameBlank(starts: bool, words: seq<string>, inWord: bool, c: char)
    requires IsSpace(c) && Proper(words) && (if inWord then words != [] else words != [] || starts)
    ensures Frame(starts, words, false) == Added(Frame(starts, words, inWord), c)
  {
    SentenceIsTrimmed(words);
    assert Sentence([]) == "";
    if inWord {
      EndsUnblanked(Blank(starts), Sentence(words));
    }
    hide Sentence;
    hide Proper;
  }

  /** One more character behind a frame. */
  lemma FramedMore(text: string)
    requires text != ""
    ensures Framed(text) == Added(Framed(text[..|text| - 1]), Blanked(text[|text| - 1]))
  {
    var before, c := text[..|text| - 1], text[|text| - 1];
    var words := WordsOf(before);
    CharMapped(c);
    WordsMore(text);
    WordsAreProper(before);
    hide Blanked;
    hide WordsOf;
    hide Sentence;
    hide Longer;
    hide Proper;
    hide Added;
    if before == "" {
      assert words == [] by { NoWordsInNothing(); }
      FirstFramed(text, c);
      return;
    }
    if words == [] {
      NoWordsStartBlank(before);
    }
    assert StartsBlank(text) == StartsBlank(before);
    if !IsWordChar(c) {
      FrameBlank(StartsBlank(before), words, EndsInWord(before), Blanked(c));
    } else if EndsInWord(before) {
      FrameWordGrows(StartsBlank(before), words, InLowerCase(c));
    } else {
      FrameNewWord(StartsBlank(before), words, InLowerCase(c));
    }
  }

  lemma FirstFramed(text: string, c: char)
    requires text == [c]
    ensures Framed(text) == Added(Framed(""), Blanked(c))
  {
    CharMapped(c);
    hide Blanked;
    assert text[..0] == "";
    assert WordsOf(text) == if IsWordChar(c) then [[InLowerCase(c)]] else [];
  }

  lemma NoWordsInNothing()
    ensures WordsOf("") == []
  {
  }

  lemma EndsUnblanked(a: string, text: string)
    requires text != "" && Trimmed(text)
    ensures (a + text)[|a + text| - 1] != ' '
  {
  }

  lemma StripRightNone(text: string)
    requires text != "" && !IsSpace(text[|text| - 1])
    ensures StripRight(text) == text
  {
  }

  lemma StripRightBlank(text: string)
    ensures StripRight(text + " ") == StripRight(text)
  {
    assert (text + " ")[..|text|] == text;
  }

  lemma StripsFrame(a: string, text: string, b: string)
    requires (a == "" || a == " ") && (b == "" || b == " ") && Trimmed(text)
    ensures Strip(a + text + b) == text
  {
    if text == "" {
      NothingLeft();
      assert StripLeft("  ") == StripLeft(" ") by { assert "  "[1..] == " "; }
      assert StripLeft(" ") == StripLeft("") by { assert " "[1..] == ""; }
    } else {
      assert StripLeft(a + text + b) == text + b by {
        if a == " " {
          assert (a + text + b)[1..] == text + b;
        } else {
          assert a + text + b == text + b;
        }
      }
      StripRightNone(text);
      if b == " " {
        StripRightBlank(text);
      } else {
        assert text + b == text;
      }
    }
  }

  /** The normal form of a text is the sentence of its words: their letters and digits in lower case, and
      a single blank wherever anything else stands between two of them. */
  lemma NormIsSentence(text: string)
    ensures Norm(text) == Sentence(WordsOf(text))
  {
    SqueezedIsFramed(text);
    WordsAreProper(text);
    SentenceIsTrimmed(WordsOf(text));
    hide Squeezed;
    hide Mapped;
    hide WordsOf;
    hide Sentence;
    StripsFrame(Blank(StartsBlank(text)), Sentence(WordsOf(text)), Blank(WordsOf(text) != [] && !EndsInWord(text)));
  }

  // ------------------------------------------------------------------ what an exact match means

  lemma {:induction false} LettersApart(a: string, b: string)
    ensures Letters(a + b) == Letters(a) + Letters(b)
  {
    if b == "" {
      assert a + b == a;
    } else {
      var n := |b| - 1;
      LettersApart(a, b[..n]);
      assert (a + b)[..|a| + n] == a + b[..n];
    }
  }

  predicate InLower(word: string) {
    forall k :: 0 <= k < |word| ==> '0' <= word[k] <= '9' || 'a' <= word[k] <= 'z'
  }

  predicate AllLower(words: seq<string>) {
    forall k :: 0 <= k < |words| ==> InLower(words[k])
  }

  lemma CharInLower(c: char)
    requires IsWordChar(c)
    ensures var d := InLowerCase(c); '0' <= d <= '9' || 'a' <= d <= 'z'
  {
  }

  lemma LongerInLower(words: seq<string>, c: char)
    requires AllLower(words) && ('0' <= c <= '9' || 'a' <= c <= 'z')
    ensures words != [] ==> AllLower(Longer(words, c))
    ensures AllLower(words + [[c]])
  {
  }

  lemma {:induction false} WordsInLower(text: string)
    ensures AllLower(WordsOf(text))
  {
    if text != "" {
      WordsInLower(text[..|text| - 1]);
      WordsMore(text);
      if IsWordChar(text[|text| - 1]) {
        CharInLower(text[|text| - 1]);
        LongerInLower(WordsOf(text[..|text| - 1]), InLowerCase(text[|text| - 1]));
      }
      hide WordsOf;
      hide Longer;
      hide AllLower;
      hide InLowerCase;
    }
  }

  lemma {:induction false} LettersOfWord(word: string)
    requires InLower(word)
    ensures Letters(word) == word
  {
    if word != "" {
      LettersOfWord(word[..|word| - 1]);
    }
  }

  lemma {:induction false} LettersOfSentence(words: seq<string>)
    requires AllLower(words)
    ensures Letters(Sentence(words)) == Concatenated(words)
  {
    if |words| == 1 {
      LettersOfWord(words[0]);
      assert words[..0] == [];
    } else if words != [] {
      var n := |words| - 1;
      LettersOfSentence(words[..n]);
      SentenceMore(words[..n], words[n]);
      assert words == words[..n] + [words[n]];
      LettersApart(Sentence(words[..n]) + " ", words[n]);
      LettersApart(Sentence(words[..n]), " ");
      LettersOfWord(words[n]);
      assert Letters(" ") == "" by { assert " "[..0] == ""; }
      hide Sentence;
      hide Letters;
    }
  }

  /** The normal form keeps the letters and digits of a text, in their order, and no others. */
  lemma NormKeepsLetters(text: string)
    ensures Letters(Norm(text)) == Letters(text)
  {
    NormIsSentence(text);
    WordsInLower(text);
    LettersOfSentence(WordsOf(text));
    LettersOfWords(text);
  }

  /** The letters and digits of the part are in the chunk, as one run. */
  predicate LettersRun(chunk: string, part: string) {
    Contains(Letters(chunk), Letters(part))
  }

  lemma FoundRuns(part: string, chunk: string)
    requires Found(part, Norm(chunk))
    ensures LettersRun(chunk, part)
  {
    hide Norm;
    hide Letters;
    hide Contains;
    var a, b := Around(Norm(chunk), Norm(part));
    LettersApart(a + Norm(part), b);
    LettersApart(a, Norm(part));
    NormKeepsLetters(chunk);
    NormKeepsLetters(part);
    ContainsMiddle(Letters(a), Letters(part), Letters(b));
  }

  /** Soundness: a quote that is accepted as exact says nothing that the chunk does not say. The letters
      and digits of each part looked for are those of a stretch of the chunk, without a gap. */
  lemma ExactIsFaithful(quote: string, chunk: string, ratio: Similarity)
    requires Judged(quote, Norm(chunk), ratio) == Exact
    ensures forall k :: 0 <= k < |Sought(quote)| ==> LettersRun(chunk, Sought(quote)[k])
  {
    hide Norm;
    hide Sought;
    hide Strip;
    forall k | 0 <= k < |Sought(quote)| ensures LettersRun(chunk, Sought(quote)[k]) {
      FoundRuns(Sought(quote)[k], chunk);
    }
  }

  lemma LongerBehind(a: seq<string>, b: seq<string>, c: char)
    requires b != []
    ensures Longer(a + b, c) == a + Longer(b, c)
  {
  }

  /** Words between which anything but a letter or digit stands are kept apart. */
  lemma {:induction false} WordsStayApart(a: string, c: char, b: string)
    requires !IsWordChar(c)
    ensures WordsOf(a + [c] + b) == WordsOf(a) + WordsOf(b)
  {
    var text := a + [c] + b;
    if b == "" {
      assert text == a + [c] && text[..|text| - 1] == a;
      return;
    }
    var before, d := b[..|b| - 1], b[|b| - 1];
    WordsStayApart(a, c, before);
    assert text[..|text| - 1] == a + [c] + before && text[|text| - 1] == d;
    assert EndsInWord(a + [c] + before) <==> EndsInWord(before);
    WordsMore(text);
    WordsMore(b);
    hide WordsOf;
    hide Longer;
    if IsWordChar(d) && EndsInWord(before) {
      LongerBehind(WordsOf(a), WordsOf(before), InLowerCase(d));
    } else if IsWordChar(d) {
      assert WordsOf(a) + WordsOf(before) + [[InLowerCase(d)]] == WordsOf(a) + (WordsOf(before) + [[InLowerCase(d)]]);
    }
  }

  // ------------------------------------------------------------------ the words of a normal form

  lemma WordListMore(text: string, c: char, words: seq<string>, last: string)
    requires WordList(text) == words + [last] && text != "" && !IsSpace(text[|text| - 1]) && !IsSpace(c)
    ensures WordList(text + [c]) == words + [last + [c]]
  {
    assert (text + [c])[..|text|] == text;
  }

  lemma NewWordBehind(text: string, c: char)
    requires !IsSpace(c) && (text != "" ==> IsSpace(text[|text| - 1]))
    ensures WordList(text + [c]) == WordList(text) + [[c]]
  {
    assert (text + [c])[..|text|] == text;
  }

  lemma LowerIsNoSpace(word: string, k: nat)
    requires InLower(word) && k < |word|
    ensures !IsSpace(word[k])
  {
  }

  lemma {:induction false} WordBehind(text: string, word: string)
    requires word != "" && InLower(word) && (text != "" ==> IsSpace(text[|text| - 1]))
    ensures WordList(text + word) == WordList(text) + [word]
  {
    hide WordList;
    hide IsSpace;
    var n := |word| - 1;
    LowerIsNoSpace(word, n);
    if n == 0 {
      NewWordBehind(text, word[0]);
      assert word == [word[0]];
    } else {
      LowerIsNoSpace(word, n - 1);
      WordBehind(text, word[..n]);
      WordListMore(text + word[..n], word[n], WordList(text), word[..n]);
      assert text + word == text + word[..n] + [word[n]] && word == word[..n] + [word[n]];
    }
  }

  lemma BlankBehind(text: string)
    ensures WordList(text + " ") == WordList(text)
  {
    assert (text + " ")[..|text|] == text;
  }

  lemma LastWordFine(words: seq<string>)
    requires words != [] && AllLower(words) && Proper(words)
    ensures var n := |words| - 1;
      && AllLower(words[..n]) && Proper(words[..n])
      && words[n] != "" && InLower(words[n])
      && words == words[..n] + [words[n]]
  {
    hide InLower;
    hide IsSpace;
  }

  lemma SentenceOfFew(word: string)
    ensures Sentence([]) == "" && Sentence([word]) == word && WordList("") == []
  {
    hide IsSpace;
  }

  lemma {:induction false} SentenceSplits(words: seq<string>)
    requires AllLower(words) && Proper(words)
    ensures WordList(Sentence(words)) == words
  {
    hide *;
    SentenceOfFew("");
    if words == [] {
      return;
    }
    var n := |words| - 1;
    var front, last := Sentence(words[..n]), words[n];
    LastWordFine(words);
    SentenceSplits(words[..n]);
    if n == 0 {
      assert words[..n] == [];
      WordBehind("", last);
      SentenceOfFew(last);
      assert "" + last == last && words == [last];
    } else {
      SentenceMore(words[..n], last);
      BlankBehind(front);
      SpaceEnds(front);
      WordBehind(front + " ", last);
    }
  }

  lemma SpaceEnds(text: string)
    ensures var t := text + " "; IsSpace(t[|t| - 1])
  {
  }

  /** The normal form splits into the words of the text. */
  lemma NormSplits(text: string)
    ensures WordList(Norm(text)) == WordsOf(text)
  {
    NormIsSentence(text);
    WordsInLower(text);
    WordsAreProper(text);
    SentenceSplits(WordsOf(text));
    hide Norm;
    hide WordsOf;
  }

  lemma WordsBehind(text: string, inWord: bool, c: char)
    ensures WordsFrom(text + [c], inWord)
      == WordsFrom(text, inWord) + (if IsSpace(c) || (if text == "" then inWord else !IsSpace(text[|text| - 1])) then 0 else 1)
  {
    if text == "" {
      assert "" + [c] == [c] && [c][1..] == "";
    } else {
      assert (text + [c])[1..] == text[1..] + [c];
      WordsBehind(text[1..], !IsSpace(text[0]), c);
    }
  }

  /** The words of a text are counted as it is split. */
  lemma {:induction false} WordsCounted(text: string)
    ensures Words(text) == |WordList(text)|
  {
    if text != "" {
      var n := |text| - 1;
      WordsCounted(text[..n]);
      WordsBehind(text[..n], false, text[n]);
      assert text == text[..n] + [text[n]];
    }
  }
}
