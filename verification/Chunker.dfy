/** Cutting the text of a version into overlapping chunks with stable identities (backend/app/ingest/chunker.py,
    backend/app/ingest/hashing.py). The tokenizer's offsets and the lexical normalisation are parameters; hashes are
    injective, so texts stand for them. */
module Chunker {
  import opened Basics
  import opened Wrappers

  newtype SectionKey = n: int | 0 <= n

  datatype Span = Span(start: int, end: int)

  datatype Block = Block(section: SectionKey, page: nat, text: string)

  /** A window of a block's text. */
  datatype Piece = Piece(section: SectionKey, page: nat, charStart: int, charEnd: int, tokens: nat, text: string)

  datatype Chunk = Chunk(piece: Piece, occurrence: nat, index: nat)

  /** What the chunk id is derived from, within one version. */
  datatype Identity = Identity(page: nat, section: SectionKey, charStart: int, occurrence: nat, content: string)

  datatype ChunkingError = OverlapTooLarge | NoTokenOffsets | NoChunks

  datatype Settings = Settings(maxTokens: nat, overlap: nat, spans: string -> seq<Span>, blank: string -> bool, normalize: string -> string)

  function IdentityOf(c: Chunk): Identity {
    Identity(c.piece.page, c.piece.section, c.piece.charStart, c.occurrence, c.piece.text)
  }

  /** Half-open token ranges. */
  datatype Window = Window(start: nat, end: nat)

  function EndOf(start: nat, n: nat, maxTokens: nat): nat {
    if start + maxTokens < n then start + maxTokens else n
  }

  /** The windows from a start on: each begins a step after the one before, and the first that reaches the end is the last. */
  function Windows(start: nat, n: nat, maxTokens: nat, overlap: nat): seq<Window>
    requires overlap < maxTokens && start < n
    decreases n - start
  {
    var end := EndOf(start, n, maxTokens);
    [Window(start, end)] + if end == n then [] else Windows(start + (maxTokens - overlap), n, maxTokens, overlap)
  }

  predicate WindowFits(w: Window, n: nat, maxTokens: nat) {
    w.start < w.end <= n && w.end - w.start <= maxTokens
  }

  /** A window and the next: the first is full, they share exactly the overlap, and the next reaches further. */
  predicate Neighbours(w: Window, next: Window, maxTokens: nat, overlap: nat) {
    w.end - w.start == maxTokens && w.end - next.start == overlap && w.start < next.start && w.end < next.end
  }

  /** Windows that begin with one of them and end where the tokens end. */
  predicate Spanning(ws: seq<Window>, first: Window, n: nat) {
    ws != [] && ws[0] == first && ws[|ws| - 1].end == n
  }

  lemma SpanningMore(ws: seq<Window>, first: Window, n: nat, w: Window)
    requires Spanning(ws, first, n)
    ensures Spanning([w] + ws, w, n)
  {
  }

  /** The windows begin at the start and reach the end. */
  lemma {:induction false} WindowsReach(start: nat, n: nat, maxTokens: nat, overlap: nat)
    requires overlap < maxTokens && start < n
    ensures Spanning(Windows(start, n, maxTokens, overlap), Window(start, EndOf(start, n, maxTokens)), n)
    decreases n - start
  {
    var next := start + (maxTokens - overlap);
    if EndOf(start, n, maxTokens) < n {
      WindowsReach(next, n, maxTokens, overlap);
      SpanningMore(Windows(next, n, maxTokens, overlap), Window(next, EndOf(next, n, maxTokens)), n, Window(start, EndOf(start, n, maxTokens)));
    }
  }

  /** Every window has tokens, and none is longer than allowed. */
  lemma {:induction false} WindowsFit(start: nat, n: nat, maxTokens: nat, overlap: nat)
    requires overlap < maxTokens && start < n
    ensures forall w :: w in Windows(start, n, maxTokens, overlap) ==> WindowFits(w, n, maxTokens)
    decreases n - start
  {
    if EndOf(start, n, maxTokens) < n {
      WindowsFit(start + (maxTokens - overlap), n, maxTokens, overlap);
    }
  }

  /** Neighbouring windows overlap exactly, and none lies inside its predecessor. */
  lemma {:induction false} WindowsOverlap(start: nat, n: nat, maxTokens: nat, overlap: nat, i: nat)
    requires overlap < maxTokens && start < n && i + 1 < |Windows(start, n, maxTokens, overlap)|
    ensures Neighbours(Windows(start, n, maxTokens, overlap)[i], Windows(start, n, maxTokens, overlap)[i + 1], maxTokens, overlap)
    decreases n - start
  {
    var next := start + (maxTokens - overlap);
    WindowsReach(next, n, maxTokens, overlap);
    if i > 0 {
      WindowsOverlap(next, n, maxTokens, overlap, i - 1);
    }
  }

  /** No token is left out. */
  lemma {:induction false} WindowsCover(start: nat, n: nat, maxTokens: nat, overlap: nat, token: nat) returns (i: nat)
    requires overlap < maxTokens && start <= token < n
    ensures i < |Windows(start, n, maxTokens, overlap)|
    ensures Windows(start, n, maxTokens, overlap)[i].start <= token < Windows(start, n, maxTokens, overlap)[i].end
    decreases n - start
  {
    if token < EndOf(start, n, maxTokens) {
      i := 0;
    } else {
      var j := WindowsCover(start + (maxTokens - overlap), n, maxTokens, overlap, token);
      i := j + 1;
    }
  }

  predicate Usable(span: Span, text: string) {
    0 <= span.start < span.end <= |text|
  }

  /** The spans the tokenizer gave that lie in the text. */
  function UsableSpans(spans: seq<Span>, text: string): (r: seq<Span>)
    ensures forall i :: 0 <= i < |r| ==> Usable(r[i], text)
    decreases |spans|
  {
    if spans == [] then []
    else
      var n := |spans| - 1;
      UsableSpans(spans[..n], text) + if Usable(spans[n], text) then [spans[n]] else []
  }

  function SpansOf(x: Settings, b: Block): seq<Span> {
    UsableSpans(x.spans(b.text), b.text)
  }

  function Slice(text: string, start: int, end: int): string {
    if 0 <= start <= end <= |text| then text[start..end] else ""
  }

  function PieceOf(b: Block, spans: seq<Span>, w: Window): Piece
    requires w.start < w.end <= |spans|
  {
    var charStart, charEnd := spans[w.start].start, spans[w.end - 1].end;
    Piece(b.section, b.page, charStart, charEnd, w.end - w.start, Slice(b.text, charStart, charEnd))
  }

  /** The pieces of a block from a token on. */
  function PiecesFrom(x: Settings, b: Block, spans: seq<Span>, start: nat): seq<Piece>
    requires x.overlap < x.maxTokens && start < |spans|
    decreases |spans| - start
  {
    var end := EndOf(start, |spans|, x.maxTokens);
    [PieceOf(b, spans, Window(start, end))]
    + if end == |spans| then [] else PiecesFrom(x, b, spans, start + (x.maxTokens - x.overlap))
  }

  /** Piece i is the piece of window i. */
  predicate Matches(b: Block, spans: seq<Span>, pieces: seq<Piece>, ws: seq<Window>, i: nat) {
    && |pieces| == |ws|
    && (i < |ws| ==> ws[i].start < ws[i].end <= |spans| && pieces[i] == PieceOf(b, spans, ws[i]))
  }

  lemma MatchesOneMore(b: Block, spans: seq<Span>, pieces: seq<Piece>, ws: seq<Window>, w: Window, i: nat)
    requires w.start < w.end <= |spans| && Matches(b, spans, pieces, ws, if i > 0 then i - 1 else 0)
    ensures Matches(b, spans, [PieceOf(b, spans, w)] + pieces, [w] + ws, i)
  {
  }

  /** There is one piece for each window. */
  lemma {:induction false} PieceOfWindow(x: Settings, b: Block, spans: seq<Span>, start: nat, i: nat)
    requires x.overlap < x.maxTokens && start < |spans|
    ensures Matches(b, spans, PiecesFrom(x, b, spans, start), Windows(start, |spans|, x.maxTokens, x.overlap), i)
    decreases |spans| - start
  {
    var end, next := EndOf(start, |spans|, x.maxTokens), start + (x.maxTokens - x.overlap);
    if end < |spans| {
      PieceOfWindow(x, b, spans, next, if i > 0 then i - 1 else 0);
      MatchesOneMore(b, spans, PiecesFrom(x, b, spans, next), Windows(next, |spans|, x.maxTokens, x.overlap), Window(start, end), i);
    } else {
      MatchesOneMore(b, spans, [], [], Window(start, end), i);
      assert [PieceOf(b, spans, Window(start, end))] + [] == [PieceOf(b, spans, Window(start, end))];
    }
  }

  /** The pieces of one block; a blank block has none. */
  function BlockPieces(x: Settings, b: Block): seq<Piece>
    requires x.overlap < x.maxTokens && HasOffsets(x, b)
  {
    if x.blank(b.text) then [] else PiecesFrom(x, b, SpansOf(x, b), 0)
  }

  predicate HasOffsets(x: Settings, b: Block) {
    x.blank(b.text) || SpansOf(x, b) != []
  }

  predicate AllHaveOffsets(x: Settings, blocks: seq<Block>) {
    forall i :: 0 <= i < |blocks| ==> HasOffsets(x, blocks[i])
  }

  lemma AllPiecesStep(x: Settings, blocks: seq<Block>, k: nat)
    requires x.overlap < x.maxTokens && k < |blocks| && AllHaveOffsets(x, blocks[..k]) && HasOffsets(x, blocks[k])
    ensures AllHaveOffsets(x, blocks[..k + 1])
    ensures AllPieces(x, blocks[..k + 1]) == AllPieces(x, blocks[..k]) + BlockPieces(x, blocks[k])
  {
    assert blocks[..k + 1][..k] == blocks[..k];
  }

  function AllPieces(x: Settings, blocks: seq<Block>): seq<Piece>
    requires x.overlap < x.maxTokens && AllHaveOffsets(x, blocks)
    decreases |blocks|
  {
    if blocks == [] then []
    else
      var n := |blocks| - 1;
      AllPieces(x, blocks[..n]) + BlockPieces(x, blocks[n])
  }

  /** How many pieces have a lexical text. */
  function Occurrences(x: Settings, pieces: seq<Piece>, lexical: string): nat
    decreases |pieces|
  {
    if pieces == [] then 0
    else
      var n := |pieces| - 1;
      Occurrences(x, pieces[..n], lexical) + if x.normalize(pieces[n].text) == lexical then 1 else 0
  }

  /** Chunks are numbered through the version, and counted per lexical text. */
  function Numbered(x: Settings, pieces: seq<Piece>): (r: seq<Chunk>)
    ensures |r| == |pieces|
    decreases |pieces|
  {
    if pieces == [] then []
    else
      var n := |pieces| - 1;
      Numbered(x, pieces[..n]) + [Chunk(pieces[n], Occurrences(x, pieces[..n], x.normalize(pieces[n].text)), n)]
  }

  lemma {:induction false} NumberedAt(x: Settings, pieces: seq<Piece>, i: nat)
    requires i < |pieces|
    ensures Numbered(x, pieces)[i] == Chunk(pieces[i], Occurrences(x, pieces[..i], x.normalize(pieces[i].text)), i)
    decreases |pieces|
  {
    var n := |pieces| - 1;
    if i < n {
      NumberedAt(x, pieces[..n], i);
      assert pieces[..n][..i] == pieces[..i];
    }
  }

  lemma {:induction false} OccurrencesGrow(x: Settings, pieces: seq<Piece>, i: nat, j: nat, lexical: string)
    requires i <= j <= |pieces|
    ensures Occurrences(x, pieces[..i], lexical) <= Occurrences(x, pieces[..j], lexical)
    ensures i < j && x.normalize(pieces[i].text) == lexical ==> Occurrences(x, pieces[..i], lexical) < Occurrences(x, pieces[..j], lexical)
    decreases j
  {
    if i < j {
      OccurrencesGrow(x, pieces, i, j - 1, lexical);
      assert pieces[..j][..j - 1] == pieces[..j - 1];
    }
  }

  /** The ids of a version's chunks are derived from different identities. */
  lemma IdentitiesDiffer(x: Settings, pieces: seq<Piece>, i: nat, j: nat)
    requires i < j < |pieces|
    ensures IdentityOf(Numbered(x, pieces)[i]) != IdentityOf(Numbered(x, pieces)[j])
  {
    NumberedAt(x, pieces, i);
    NumberedAt(x, pieces, j);
    OccurrencesGrow(x, pieces, i, j, x.normalize(pieces[j].text));
  }

  predicate Ordered(spans: seq<Span>) {
    forall i, j :: 0 <= i < j < |spans| ==> spans[i].start <= spans[j].start && spans[i].end <= spans[j].end
  }

  /** With ordered offsets every token's characters lie in one of the block's pieces. */
  lemma PiecesCover(x: Settings, b: Block, token: nat) returns (i: nat)
    requires x.overlap < x.maxTokens && !x.blank(b.text) && Ordered(SpansOf(x, b)) && token < |SpansOf(x, b)|
    ensures i < |BlockPieces(x, b)|
    ensures var p, s := BlockPieces(x, b)[i], SpansOf(x, b)[token];
            0 <= p.charStart <= s.start < s.end <= p.charEnd <= |b.text| && p.text == b.text[p.charStart..p.charEnd]
  {
    var spans := SpansOf(x, b);
    i := WindowsCover(0, |spans|, x.maxTokens, x.overlap, token);
    PieceOfWindow(x, b, spans, 0, i);
    PieceCovers(b, spans, Windows(0, |spans|, x.maxTokens, x.overlap)[i], token);
  }

  lemma PieceCovers(b: Block, spans: seq<Span>, w: Window, token: nat)
    requires Ordered(spans) && (forall i :: 0 <= i < |spans| ==> Usable(spans[i], b.text))
    requires w.start <= token < w.end <= |spans|
    ensures var p := PieceOf(b, spans, w);
            && 0 <= p.charStart <= spans[token].start && spans[token].end <= p.charEnd <= |b.text|
            && p.charStart <= p.charEnd && p.text == b.text[p.charStart..p.charEnd]
  {
    assert Usable(spans[w.start], b.text) && Usable(spans[w.end - 1], b.text) && Usable(spans[token], b.text);
  }

  function CountIn(counts: map<string, nat>, lexical: string): nat {
    if lexical in counts then counts[lexical] else 0
  }

  ghost predicate Counting(x: Settings, counts: map<string, nat>, pieces: seq<Piece>) {
    forall l :: CountIn(counts, l) == Occurrences(x, pieces, l)
  }

  predicate SomeText(x: Settings, blocks: seq<Block>) {
    exists i :: 0 <= i < |blocks| && !x.blank(blocks[i].text)
  }

  lemma SomeTextStep(x: Settings, blocks: seq<Block>, k: nat)
    requires k < |blocks|
    ensures SomeText(x, blocks[..k + 1]) <==> SomeText(x, blocks[..k]) || !x.blank(blocks[k].text)
  {
    var more := blocks[..k + 1];
    assert more[k] == blocks[k];
    if i :| 0 <= i < k && !x.blank(blocks[..k][i].text) {
      assert more[i] == blocks[..k][i];
    }
  }

  /** `chunk_blocks`. */
  method ChunkBlocks(x: Settings, blocks: seq<Block>) returns (r: Result<seq<Chunk>, ChunkingError>)
    ensures r.Ok? <==> x.overlap < x.maxTokens && AllHaveOffsets(x, blocks) && SomeText(x, blocks)
    ensures r.Ok? ==> r.value == Numbered(x, AllPieces(x, blocks))
    ensures r == Err(OverlapTooLarge) <==> x.overlap >= x.maxTokens
    ensures r == Err(NoTokenOffsets) <==> x.overlap < x.maxTokens && !AllHaveOffsets(x, blocks)
  {
    if x.overlap >= x.maxTokens {
      return Err(OverlapTooLarge);
    }
    var counts: map<string, nat> := map[];
    var result: seq<Chunk> := [];
    ghost var pieces: seq<Piece> := [];
    for k := 0 to |blocks|
      invariant AllHaveOffsets(x, blocks[..k]) && pieces == AllPieces(x, blocks[..k])
      invariant result == Numbered(x, pieces) && Counting(x, counts, pieces)
      invariant result == [] <==> !SomeText(x, blocks[..k])
    {
      SomeTextStep(x, blocks, k);
      if x.blank(blocks[k].text) {
        AllPiecesStep(x, blocks, k);
        assert pieces + [] == pieces;
        continue;
      }
      var spans := SpansOf(x, blocks[k]);
      if spans == [] {
        assert !HasOffsets(x, blocks[k]);
        return Err(NoTokenOffsets);
      }
      AllPiecesStep(x, blocks, k);
      counts, result := ChunkBlock(x, blocks[k], spans, counts, result, pieces);
      pieces := pieces + BlockPieces(x, blocks[k]);
    }
    assert blocks[..|blocks|] == blocks;
    if result == [] {
      return Err(NoChunks);
    }
    return Ok(result);
  }

  /** The pieces that the windows from a start on still have to give. */
  function Left(x: Settings, b: Block, spans: seq<Span>, start: nat): seq<Piece>
    requires x.overlap < x.maxTokens
  {
    if start < |spans| then PiecesFrom(x, b, spans, start) else []
  }

  /** The next window starts a step later; past a window that reaches the end there is none. */
  function NextStart(x: Settings, start: nat, n: nat): nat
    requires x.overlap < x.maxTokens
  {
    if EndOf(start, n, x.maxTokens) == n then n else start + (x.maxTokens - x.overlap)
  }

  lemma LeftStep(x: Settings, b: Block, spans: seq<Span>, start: nat, total: seq<Piece>)
    requires x.overlap < x.maxTokens && start < |spans|
    ensures start < NextStart(x, start, |spans|)
    ensures (total + [PieceOf(b, spans, Window(start, EndOf(start, |spans|, x.maxTokens)))]) + Left(x, b, spans, NextStart(x, start, |spans|))
            == total + Left(x, b, spans, start)
  {
    Associate(total, [PieceOf(b, spans, Window(start, EndOf(start, |spans|, x.maxTokens)))], Left(x, b, spans, NextStart(x, start, |spans|)));
  }

  /** The windows of one block, up to the first that reaches its end. */
  method ChunkBlock(x: Settings, b: Block, spans: seq<Span>, before: map<string, nat>, built: seq<Chunk>, ghost pieces: seq<Piece>)
    returns (counts: map<string, nat>, result: seq<Chunk>)
    requires x.overlap < x.maxTokens && !x.blank(b.text) && spans == SpansOf(x, b) && spans != []
    requires built == Numbered(x, pieces) && Counting(x, before, pieces)
    ensures result == Numbered(x, pieces + BlockPieces(x, b)) && Counting(x, counts, pieces + BlockPieces(x, b))
  {
    counts, result := before, built;
    var start, n := 0, |spans|;
    ghost var total := pieces;
    while start < n
      invariant total + Left(x, b, spans, start) == pieces + BlockPieces(x, b)
      invariant result == Numbered(x, total) && Counting(x, counts, total)
      decreases n - start
    {
      var end := EndOf(start, n, x.maxTokens);
      var piece := PieceOf(b, spans, Window(start, end));
      var next := NextStart(x, start, n);
      LeftStep(x, b, spans, start, total);
      counts, result := AddPiece(x, counts, result, total, piece);
      total := total + [piece];
      start := next;
    }
    assert total + [] == total;
  }

  method AddPiece(x: Settings, before: map<string, nat>, built: seq<Chunk>, ghost pieces: seq<Piece>, piece: Piece)
    returns (counts: map<string, nat>, result: seq<Chunk>)
    requires built == Numbered(x, pieces) && Counting(x, before, pieces)
    ensures result == Numbered(x, pieces + [piece]) && Counting(x, counts, pieces + [piece])
  {
    var lexical := x.normalize(piece.text);
    var occurrence := CountIn(before, lexical);
    counts := before[lexical := occurrence + 1];
    result := built + [Chunk(piece, occurrence, |built|)];
    OnePieceMore(x, pieces, piece);
    forall l ensures CountIn(counts, l) == Occurrences(x, pieces + [piece], l) {
      assert CountIn(before, l) == Occurrences(x, pieces, l);
    }
  }

  lemma OnePieceMore(x: Settings, pieces: seq<Piece>, piece: Piece)
    ensures Numbered(x, pieces + [piece]) == Numbered(x, pieces) + [Chunk(piece, Occurrences(x, pieces, x.normalize(piece.text)), |pieces|)]
    ensures forall l :: Occurrences(x, pieces + [piece], l) == Occurrences(x, pieces, l) + if x.normalize(piece.text) == l then 1 else 0
  {
    assert (pieces + [piece])[..|pieces|] == pieces;
  }
}
