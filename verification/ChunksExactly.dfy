/** Which tokens and which text a chunk has, and how it is numbered, stated on the block it comes from. */
module ChunksExactly {
  import opened Basics
  import opened Chunker

  /** The windows of n tokens: number i starts i steps on, and every window but the last is full. */
  lemma {:induction false} WindowAt(start: nat, n: nat, maxTokens: nat, overlap: nat, i: nat)
    requires overlap < maxTokens && start < n && i < |Windows(start, n, maxTokens, overlap)|
    ensures var w := Windows(start, n, maxTokens, overlap)[i];
            && w.start == start + Steps(i, maxTokens - overlap)
            && w.end == (if w.start + maxTokens < n then w.start + maxTokens else n)
            && (i == |Windows(start, n, maxTokens, overlap)| - 1 <==> w.end == n)
    decreases n - start
  {
    if i > 0 {
      WindowAt(start + (maxTokens - overlap), n, maxTokens, overlap, i - 1);
      StepsMore(i - 1, maxTokens - overlap);
    }
  }

  /** In a block of n tokens, window i starts i steps from the front, every window but the last is full, and the last ends the block. */
  lemma WindowExactly(n: nat, maxTokens: nat, overlap: nat, i: nat)
    requires overlap < maxTokens && n > 0 && i < |Windows(0, n, maxTokens, overlap)|
    ensures var ws := Windows(0, n, maxTokens, overlap);
            && ws[i].start == i * (maxTokens - overlap)
            && ws[i].end == (if ws[i].start + maxTokens < n then ws[i].start + maxTokens else n)
            && (i == |ws| - 1 <==> ws[i].end == n)
  {
    WindowAt(0, n, maxTokens, overlap, i);
    StepsIs(i, maxTokens - overlap);
  }

  /** What identifies a chunk within its version: place, text and occurrence, whatever its number. */
  lemma IdentityExactly(c: Chunk, d: Chunk)
    ensures IdentityOf(c) == IdentityOf(d) <==>
              && c.piece.page == d.piece.page && c.piece.section == d.piece.section && c.piece.charStart == d.piece.charStart
              && c.piece.text == d.piece.text && c.occurrence == d.occurrence
  {
  }

  function Steps(i: nat, step: nat): nat {
    if i == 0 then 0 else Steps(i - 1, step) + step
  }

  lemma {:induction false} StepsMore(i: nat, step: nat)
    ensures Steps(i + 1, step) == step + Steps(i, step)
  {
    if i > 0 {
      StepsMore(i - 1, step);
    }
  }

  lemma {:induction false} StepsIs(i: nat, step: nat)
    ensures Steps(i, step) == i * step
  {
    if i > 0 {
      StepsIs(i - 1, step);
    }
  }

  /** The pieces before i with its lexical text. */
  function Twins(x: Settings, pieces: seq<Piece>, i: nat): set<nat>
    requires i < |pieces|
  {
    set k: nat | k < i && Alike(x, pieces, k, i)
  }

  predicate Alike(x: Settings, pieces: seq<Piece>, k: nat, i: nat) {
    k < |pieces| && i < |pieces| && x.normalize(pieces[k].text) == x.normalize(pieces[i].text)
  }

  function Among(x: Settings, pieces: seq<Piece>, lexical: string, n: nat): set<nat> {
    set k: nat | k < n && Reads(x, pieces, lexical, k)
  }

  predicate Reads(x: Settings, pieces: seq<Piece>, lexical: string, k: nat) {
    k < |pieces| && x.normalize(pieces[k].text) == lexical
  }

  lemma {:induction false} OccurrencesCount(x: Settings, pieces: seq<Piece>, lexical: string, n: nat)
    requires n <= |pieces|
    ensures Occurrences(x, pieces[..n], lexical) == |Among(x, pieces, lexical, n)|
    decreases n
  {
    if n == 0 {
      assert Among(x, pieces, lexical, 0) == {};
    } else {
      OccurrencesCount(x, pieces, lexical, n - 1);
      assert pieces[..n][..n - 1] == pieces[..n - 1];
      assert Among(x, pieces, lexical, n) == Among(x, pieces, lexical, n - 1) + if Reads(x, pieces, lexical, n - 1) then {n - 1} else {};
    }
  }

  /** Chunk i has piece i, the number i, and the number of pieces before it with the same lexical text. */
  lemma ChunkAt(x: Settings, pieces: seq<Piece>, i: nat)
    requires i < |pieces|
    ensures Numbered(x, pieces)[i] == Chunk(pieces[i], |Twins(x, pieces, i)|, i)
  {
    NumberedAt(x, pieces, i);
    OccurrencesCount(x, pieces, x.normalize(pieces[i].text), i);
    assert Among(x, pieces, x.normalize(pieces[i].text), i) == Twins(x, pieces, i);
  }

  /** A piece has the section and the page of its block, and the text from its first token to its last. */
  lemma PieceExactly(b: Block, spans: seq<Span>, w: Window)
    requires w.start < w.end <= |spans| && 0 <= spans[w.start].start <= spans[w.end - 1].end <= |b.text|
    ensures var p := PieceOf(b, spans, w);
            && p.section == b.section && p.page == b.page && p.tokens == w.end - w.start
            && p.charStart == spans[w.start].start && p.charEnd == spans[w.end - 1].end
            && p.text == b.text[spans[w.start].start..spans[w.end - 1].end]
  {
  }

  /** The tokens used are those with characters inside the text. */
  lemma {:induction false} UsableExactly(spans: seq<Span>, text: string, s: Span)
    ensures s in UsableSpans(spans, text) <==> s in spans && 0 <= s.start < s.end <= |text|
    decreases |spans|
  {
    if spans != [] {
      var n := |spans| - 1;
      UsableExactly(spans[..n], text, s);
      assert spans == spans[..n] + [spans[n]];
    }
  }
}
