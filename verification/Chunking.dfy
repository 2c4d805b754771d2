/** The chunker: bounded pieces of a document's paragraphs, each sharing an overlap with the one
    before. Splitting a document into paragraphs and recognising headings is not part of this model. */
module Chunking {
  import opened Options
  import opened Texts

  /** The first k characters, or all but the last -k. */
  function Front(text: string, k: int): string {
    if k >= |text| then text else if k >= 0 then text[..k] else if |text| + k <= 0 then "" else text[..|text| + k]
  }

  /** What is left behind the first k characters. */
  function Behind(text: string, k: nat): string {
    if k >= |text| then "" else text[k..]
  }

  /** The pieces of a block: each starts behind the part of its predecessor that is not shared. */
  function Pieces(text: string, size: int, overlap: int): (pieces: seq<string>)
    requires overlap < size
    decreases |text|
  {
    if text == "" then []
    else if |text| <= size then [Front(text, size)]
    else [Front(text, size)] + Pieces(Behind(text, size - overlap), size, overlap)
  }

  /** Two neighbours share exactly the overlap: the end of the one is the start of the other. */
  predicate Share(a: string, b: string, overlap: nat) {
    overlap <= |a| && overlap <= |b| && a[|a| - overlap..] == b[..overlap]
  }

  /** A block longer than a piece. */
  lemma PiecesOfLong(text: string, size: int, overlap: int)
    requires 0 <= overlap < size < |text|
    ensures Pieces(text, size, overlap) == [text[..size]] + Pieces(text[size - overlap..], size, overlap)
  {
  }

  lemma {:induction false} PiecesBounded(text: string, size: int, overlap: int)
    requires 0 <= overlap < size && text != ""
    ensures var pieces := Pieces(text, size, overlap);
      && pieces != []
      && pieces[0] == Front(text, size)
      && (forall i :: 0 <= i < |pieces| ==> 0 < |pieces[i]| <= size)
      && (forall i :: 0 <= i < |pieces| - 1 ==> |pieces[i]| == size)
    decreases |text|
  {
    if size < |text| {
      PiecesBounded(Behind(text, size - overlap), size, overlap);
    }
  }

  lemma FirstShares(text: string, size: int, overlap: int)
    requires 0 <= overlap < size < |text|
    ensures var next := Front(text[size - overlap..], size); Share(text[..size], next, overlap) && overlap < |next|
  {
    var rest := text[size - overlap..];
    assert text[..size][size - overlap..] == rest[..overlap];
  }

  /** Consecutive pieces share exactly the overlap, and nothing more of the text comes twice. */
  lemma {:induction false} PiecesShare(text: string, size: int, overlap: int, i: nat)
    requires 0 <= overlap < size && i + 1 < |Pieces(text, size, overlap)|
    ensures Share(Pieces(text, size, overlap)[i], Pieces(text, size, overlap)[i + 1], overlap)
    ensures overlap < |Pieces(text, size, overlap)[i + 1]|
    decreases |text|
  {
    assert size < |text|;
    var rest := text[size - overlap..];
    PiecesOfLong(text, size, overlap);
    if i == 0 {
      PiecesBounded(rest, size, overlap);
      hide Pieces;
      hide Share;
      hide Front;
      FirstShares(text, size, overlap);
    } else {
      hide Pieces;
      hide Share;
      PiecesShare(rest, size, overlap, i - 1);
    }
  }

  /** The pieces without what each shares with the one before. */
  function Tails(pieces: seq<string>, overlap: nat): string {
    if pieces == [] then "" else Behind(pieces[0], overlap) + Tails(pieces[1..], overlap)
  }

  /** The first piece, followed by the others without what they share with their predecessor. */
  function Joined(pieces: seq<string>, overlap: nat): string {
    if pieces == [] then "" else pieces[0] + Tails(pieces[1..], overlap)
  }

  lemma {:induction false} TailsRebuild(text: string, size: int, overlap: int)
    requires 0 <= overlap < size && overlap < |text|
    ensures Tails(Pieces(text, size, overlap), overlap) == text[overlap..]
    decreases |text|
  {
    var pieces := Pieces(text, size, overlap);
    if |text| <= size {
      assert pieces[1..] == [];
    } else {
      var rest := text[size - overlap..];
      TailsRebuild(rest, size, overlap);
      assert pieces[1..] == Pieces(rest, size, overlap);
      assert text[..size][overlap..] + rest[overlap..] == text[overlap..];
    }
  }

  lemma CutTwice(text: string, i: nat, j: nat)
    requires i + j <= |text|
    ensures text[..i + j] + text[i..][j..] == text
  {
    assert text[i..][j..] == text[i + j..];
  }

  lemma JoinedAs(first: string, rest: seq<string>, overlap: nat)
    ensures Joined([first] + rest, overlap) == first + Tails(rest, overlap)
  {
    assert ([first] + rest)[1..] == rest;
  }

  /** Joining the pieces of a block gives back the block. */
  lemma Rebuilds(text: string, size: int, overlap: int)
    requires 0 <= overlap < size
    ensures Joined(Pieces(text, size, overlap), overlap) == text
  {
    if size < |text| {
      var rest := text[size - overlap..];
      PiecesOfLong(text, size, overlap);
      TailsRebuild(rest, size, overlap);
      JoinedAs(text[..size], Pieces(rest, size, overlap), overlap);
      CutTwice(text, size - overlap, overlap);
      hide Joined;
      hide Pieces;
      hide Tails;
    } else if text != "" {
      JoinedAs(text, [], overlap);
    }
  }

  /** The text can be put together again from its pieces, by some rule for their joints. */
  ghost predicate Recoverable(text: string, size: int, overlap: int)
    requires overlap < size
  {
    exists joint: nat :: Joined(Pieces(text, size, overlap), joint) == text
  }

  /** Every block can be put together again exactly when the overlap is not negative:
      a negative one skips characters between two pieces. */
  lemma RecoverableExactlyWhen(size: int, overlap: int)
    requires 0 < size && overlap < size
    ensures (forall text :: Recoverable(text, size, overlap)) <==> 0 <= overlap
  {
    if 0 <= overlap {
      forall text ensures Recoverable(text, size, overlap) {
        Rebuilds(text, size, overlap);
      }
    } else {
      forall joint: nat ensures Joined(Pieces(Marked(size), size, overlap), joint) != Marked(size) {
        SkipsMark(size, overlap, joint);
      }
      assert !Recoverable(Marked(size), size, overlap);
    }
  }

  function Plain(n: nat): (text: string)
    ensures |text| == n && forall i :: 0 <= i < n ==> text[i] == 'a'
  {
    if n == 0 then "" else Plain(n - 1) + "a"
  }

  /** As many plain characters as fit a piece, a mark, and one more. */
  function Marked(size: nat): string {
    Plain(size) + "ba"
  }

  lemma {:induction false} TailsHaveNot(pieces: seq<string>, joint: nat, c: char)
    requires forall i :: 0 <= i < |pieces| ==> c !in pieces[i]
    ensures c !in Tails(pieces, joint)
  {
    if pieces != [] {
      TailsHaveNot(pieces[1..], joint, c);
      assert forall x :: x in Behind(pieces[0], joint) ==> x in pieces[0];
    }
  }

  lemma SkipsMark(size: int, overlap: int, joint: nat)
    requires 0 < size && overlap < 0
    ensures Joined(Pieces(Marked(size), size, overlap), joint) != Marked(size)
  {
    var text := Marked(size);
    var rest := Behind(text, size - overlap);
    assert rest == "" || rest == "a";
    var pieces := Pieces(text, size, overlap);
    assert pieces == [Plain(size)] + Pieces(rest, size, overlap);
    assert Pieces(rest, size, overlap) == if rest == "" then [] else ["a"];
    TailsHaveNot(pieces[1..], joint, 'b');
    assert text[size] == 'b';
  }

  // ------------------------------------------------------------------ chunks of a document

  datatype Chunk = Chunk(sequence: nat, text: string, heading: string, page: Option<int>)

  /** A paragraph of the document, on its page. */
  datatype Paragraph = Heading(text: string) | Block(text: string, page: Option<int>)

  function Emitted(chunks: seq<Chunk>, pieces: seq<string>, heading: string, page: Option<int>): seq<Chunk>
    decreases pieces
  {
    if pieces == [] then chunks
    else Emitted(chunks + [Chunk(|chunks|, pieces[0], Front(heading, 200), page)], pieces[1..], heading, page)
  }

  function HeadingAt(title: string, paragraphs: seq<Paragraph>, n: nat): string
    requires n <= |paragraphs|
  {
    if n == 0 then title
    else if paragraphs[n - 1].Heading? then paragraphs[n - 1].text
    else HeadingAt(title, paragraphs, n - 1)
  }

  /** The chunks of the first n paragraphs. */
  function Chunks(title: string, paragraphs: seq<Paragraph>, size: int, overlap: int, n: nat): seq<Chunk>
    requires overlap < size && n <= |paragraphs|
  {
    if n == 0 then []
    else
      var before := Chunks(title, paragraphs, size, overlap, n - 1);
      match paragraphs[n - 1]
      case Heading(_) => before
      case Block(text, page) => Emitted(before, Pieces(Strip(text), size, overlap), HeadingAt(title, paragraphs, n - 1), page)
  }

  const MIN_WORDS: nat := 20

  function Kept(chunks: seq<Chunk>): seq<Chunk> {
    if chunks == [] then []
    else
      var before := Kept(chunks[..|chunks| - 1]);
      if Words(chunks[|chunks| - 1].text) >= MIN_WORDS then before + [chunks[|chunks| - 1]] else before
  }

  predicate Numbered(chunks: seq<Chunk>) {
    forall i :: 0 <= i < |chunks| ==> chunks[i].sequence == i
  }

  lemma {:induction false} EmittedNumbered(chunks: seq<Chunk>, pieces: seq<string>, heading: string, page: Option<int>)
    requires Numbered(chunks)
    ensures var r := Emitted(chunks, pieces, heading, page);
      && Numbered(r) && |r| == |chunks| + |pieces| && r[..|chunks|] == chunks
      && forall i :: 0 <= i < |pieces| ==> r[|chunks| + i] == Chunk(|chunks| + i, pieces[i], Front(heading, 200), page)
    decreases |pieces|
  {
    if pieces != [] {
      var chunks1 := chunks + [Chunk(|chunks|, pieces[0], Front(heading, 200), page)];
      EmittedNumbered(chunks1, pieces[1..], heading, page);
      var r := Emitted(chunks, pieces, heading, page);
      assert r[..|chunks|] == r[..|chunks1|][..|chunks|];
      forall i | 0 <= i < |pieces| ensures r[|chunks| + i] == Chunk(|chunks| + i, pieces[i], Front(heading, 200), page) {
        if i == 0 {
          assert r[|chunks|] == r[..|chunks1|][|chunks|];
        } else {
          assert r[|chunks1| + (i - 1)] == Chunk(|chunks1| + (i - 1), pieces[1..][i - 1], Front(heading, 200), page);
        }
      }
    }
  }

  lemma {:induction false} ChunksNumbered(title: string, paragraphs: seq<Paragraph>, size: int, overlap: int, n: nat)
    requires overlap < size && n <= |paragraphs|
    ensures Numbered(Chunks(title, paragraphs, size, overlap, n))
  {
    if n > 0 {
      ChunksNumbered(title, paragraphs, size, overlap, n - 1);
      if paragraphs[n - 1].Block? {
        EmittedNumbered(Chunks(title, paragraphs, size, overlap, n - 1), Pieces(Strip(paragraphs[n - 1].text), size, overlap),
          HeadingAt(title, paragraphs, n - 1), paragraphs[n - 1].page);
      }
    }
  }

  /** What survives the filter is numbered in ascending order, as it was in the whole, and consists of
      exactly the chunks with enough words. */
  lemma {:induction false} SurvivorsAscend(chunks: seq<Chunk>)
    requires Numbered(chunks)
    ensures var kept := Kept(chunks);
      && (forall i :: 0 <= i < |kept| ==> kept[i].sequence < |chunks| && chunks[kept[i].sequence] == kept[i] && Words(kept[i].text) >= MIN_WORDS)
      && (forall i, j :: 0 <= i < j < |kept| ==> kept[i].sequence < kept[j].sequence)
      && (forall k :: 0 <= k < |chunks| && Words(chunks[k].text) >= MIN_WORDS ==> chunks[k] in kept)
  {
    hide Words;
    if chunks != [] {
      SurvivorsAscend(chunks[..|chunks| - 1]);
    }
  }

  function TextsOf(chunks: seq<Chunk>): (texts: seq<string>)
    ensures |texts| == |chunks| && forall k :: 0 <= k < |chunks| ==> texts[k] == chunks[k].text
  {
    if chunks == [] then [] else TextsOf(chunks[..|chunks| - 1]) + [chunks[|chunks| - 1].text]
  }

  /** The last heading before a paragraph; the title stands for one where there is none. */
  predicate Governs(title: string, paragraphs: seq<Paragraph>, n: nat, heading: string)
    requires n <= |paragraphs|
  {
    || (exists j :: 0 <= j < n && paragraphs[j] == Heading(heading) && NoHeading(paragraphs, j + 1, n))
    || (heading == title && NoHeading(paragraphs, 0, n))
  }

  predicate NoHeading(paragraphs: seq<Paragraph>, from: nat, to: nat)
    requires to <= |paragraphs|
  {
    forall k :: from <= k < to ==> !paragraphs[k].Heading?
  }

  lemma {:induction false} HeadingGoverns(title: string, paragraphs: seq<Paragraph>, n: nat)
    requires n <= |paragraphs|
    ensures Governs(title, paragraphs, n, HeadingAt(title, paragraphs, n))
  {
    if n > 0 {
      if paragraphs[n - 1].Heading? {
        assert NoHeading(paragraphs, n, n);
      } else {
        HeadingGoverns(title, paragraphs, n - 1);
      }
    }
  }

  /** The chunks of one paragraph are a run of consecutive bounded chunks, on its page and under the heading
      before it, that rebuilds it. */
  lemma ParagraphChunks(title: string, paragraphs: seq<Paragraph>, size: int, overlap: int, n: nat)
    requires 0 <= overlap < size && n < |paragraphs| && paragraphs[n].Block?
    ensures var before, after := Chunks(title, paragraphs, size, overlap, n), Chunks(title, paragraphs, size, overlap, n + 1);
      && before <= after
      && (forall k :: |before| <= k < |after| ==>
            |after[k].text| <= size && after[k].page == paragraphs[n].page && after[k].heading == Front(HeadingAt(title, paragraphs, n), 200))
      && Governs(title, paragraphs, n, HeadingAt(title, paragraphs, n))
      && Joined(TextsOf(after[|before|..]), overlap) == Strip(paragraphs[n].text)
  {
    var before, after := Chunks(title, paragraphs, size, overlap, n), Chunks(title, paragraphs, size, overlap, n + 1);
    var text, heading, page := Strip(paragraphs[n].text), HeadingAt(title, paragraphs, n), paragraphs[n].page;
    var pieces := Pieces(text, size, overlap);
    ChunksNumbered(title, paragraphs, size, overlap, n);
    EmittedNumbered(before, pieces, heading, page);
    assert after == Emitted(before, pieces, heading, page);
    Rebuilds(text, size, overlap);
    if text != "" {
      PiecesBounded(text, size, overlap);
    }
    hide Chunks;
    hide Emitted;
    hide Pieces;
    hide HeadingAt;
    hide Strip;
    HeadingGoverns(title, paragraphs, n);
    forall k | |before| <= k < |after| ensures after[k].text == pieces[k - |before|] && after[k].page == page && after[k].heading == Front(heading, 200) {
      assert after[|before| + (k - |before|)] == Chunk(|before| + (k - |before|), pieces[k - |before|], Front(heading, 200), page);
    }
    assert TextsOf(after[|before|..]) == pieces;
  }

  class Chunker {
    const size: int
    const overlap: int
    var chunks: seq<Chunk>

    constructor (size: int, overlap: int)
      requires overlap < size
      ensures this.size == size && this.overlap == overlap && chunks == []
    {
      this.size, this.overlap, chunks := size, overlap, [];
    }

    /** Cuts pieces off the block until it is used up. */
    method Emit(block: string, heading: string, page: Option<int>)
      requires overlap < size
      modifies this`chunks
      ensures chunks == Emitted(old(chunks), Pieces(Strip(block), size, overlap), heading, page)
    {
      var text := Strip(block);
      ghost var whole := Emitted(chunks, Pieces(text, size, overlap), heading, page);
      while text != ""
        invariant Emitted(chunks, Pieces(text, size, overlap), heading, page) == whole
        decreases |text|
      {
        var piece := Front(text, size);
        ghost var pieces := Pieces(text, size, overlap);
        chunks := chunks + [Chunk(|chunks|, piece, Front(heading, 200), page)];
        assert pieces[0] == piece;
        if |text| <= size {
          assert pieces[1..] == [];
          return;
        }
        text := Behind(text, size - overlap);
        assert pieces[1..] == Pieces(text, size, overlap);
      }
    }

    /** The chunks of a document, without trivial fragments. */
    method ChunkDocument(title: string, paragraphs: seq<Paragraph>) returns (kept: seq<Chunk>)
      requires overlap < size && chunks == []
      modifies this`chunks
      ensures chunks == Chunks(title, paragraphs, size, overlap, |paragraphs|)
      ensures kept == Kept(chunks)
    {
      hide Emitted;
      var heading := title;
      for n := 0 to |paragraphs|
        invariant heading == HeadingAt(title, paragraphs, n)
        invariant chunks == Chunks(title, paragraphs, size, overlap, n)
      {
        match paragraphs[n]
        case Heading(text) => heading := text;
        case Block(text, page) => Emit(text, heading, page);
      }
      kept := [];
      for k := 0 to |chunks|
        invariant kept == Kept(chunks[..k])
      {
        assert chunks[..k + 1][..k] == chunks[..k];
        if Words(chunks[k].text) >= MIN_WORDS {
          kept := kept + [chunks[k]];
        }
      }
      assert chunks[..|chunks|] == chunks;
    }
  }
}
