/**
 * The sliding-window text splitter shared by both indexers (`split_text`).
 *
 * A window of `size` characters starts at offset 0; when it reaches or
 * passes the end of the text it is the last chunk, otherwise the next
 * window starts `overlap` characters before the end of this one. Window k
 * therefore starts at k * (size - overlap).
 */
module Chunker {

  const DefaultChunkSize := 500
  const DefaultOverlap := 100

  function Min(a: int, b: int): int { if a < b then a else b }

  /** Ceiling of a / b for a non-negative numerator. */
  function CeilDiv(a: nat, b: nat): nat
    requires b > 0
  {
    (a + b - 1) / b
  }

  lemma MulMono(x: int, y: int, b: int)
    requires x <= y && 0 <= b
    ensures x * b <= y * b
  {
    assert y * b - x * b == (y - x) * b;
  }

  /** CeilDiv(a, b) is the least q with q * b >= a. */
  lemma CeilDivSpec(a: nat, b: nat, q: nat)
    requires b > 0
    ensures q < CeilDiv(a, b) <==> q * b < a
  {
    var d := CeilDiv(a, b);
    var r := (a + b - 1) % b;
    assert a + b - 1 == d * b + r && 0 <= r < b;
    if q < d {
      MulMono(q, d - 1, b);
      assert (d - 1) * b == d * b - b;
    } else {
      MulMono(d, q, b);
    }
  }

  /**
   * A sufficient condition for the split to terminate: the window is
   * positive and either moves forward (overlap < size) or the whole text
   * fits in the first window, so that the loop never takes a second step.
   * Every call of the indexers (500, 100) meets it.
   */
  predicate ValidWindow(n: nat, size: int, overlap: int)
  {
    0 < size && (overlap < size || n <= size)
  }

  /** Offset at which window k starts. */
  function Start(k: nat, size: int, overlap: int): int
  {
    k * (size - overlap)
  }

  /** Consecutive windows start `size - overlap` apart. */
  lemma StartStep(k: nat, size: int, overlap: int)
    requires k >= 1
    ensures Start(k, size, overlap) == Start(k - 1, size, overlap) + (size - overlap)
  {
  }

  /** Number of chunks a text of length n is split into. */
  function ChunkCount(n: nat, size: int, overlap: int): nat
    requires ValidWindow(n, size, overlap)
  {
    if n == 0 then 0
    else if n <= size then 1
    else
      CeilDivSpec(n, size - overlap, 0);
      1 + Min(CeilDiv(n - size, size - overlap), CeilDiv(n, size - overlap) - 1)
  }

  /**
   * Window k is emitted exactly when it starts inside the text and every
   * earlier window ended before the end of the text (the loop did not
   * break before reaching it).
   */
  lemma EmittedIff(n: nat, size: int, overlap: int, k: nat)
    requires ValidWindow(n, size, overlap)
    ensures k < ChunkCount(n, size, overlap) <==>
              Start(k, size, overlap) < n &&
              forall j :: 0 <= j < k ==> Start(j, size, overlap) + size < n
    ensures k < ChunkCount(n, size, overlap) ==> 0 <= Start(k, size, overlap)
  {
    if k > 0 {
      assert Start(0, size, overlap) == 0;
    }
    if n > size {
      var step := size - overlap;
      assert step > 0;
      CeilDivSpec(n, step, k);
      CeilDivSpec(n, step, 0);
      if k > 0 {
        CeilDivSpec(n - size, step, k - 1);
        if Start(k - 1, size, overlap) + size < n {
          forall j | 0 <= j < k
            ensures Start(j, size, overlap) + size < n
          {
            MulMono(j, k - 1, step);
          }
        } else {
          assert !(forall j :: 0 <= j < k ==> Start(j, size, overlap) + size < n);
        }
      }
      MulMono(0, k, step);
    }
  }

  /** Chunk k of the text: the slice text[Start(k) : Start(k) + size]. */
  function Window(text: string, size: int, overlap: int, k: nat): (w: string)
    requires ValidWindow(|text|, size, overlap)
    requires k < ChunkCount(|text|, size, overlap)
  {
    EmittedIff(|text|, size, overlap, k);
    text[Start(k, size, overlap)..Min(Start(k, size, overlap) + size, |text|)]
  }

  /** The whole sequence of chunks, in order. */
  function Windows(text: string, size: int, overlap: int): (ws: seq<string>)
    requires ValidWindow(|text|, size, overlap)
  {
    seq(ChunkCount(|text|, size, overlap),
        k requires 0 <= k < ChunkCount(|text|, size, overlap) => Window(text, size, overlap, k))
  }

  /** `split_text`: the loop of the source, proved to produce Windows. */
  method SplitText(text: string, chunkSize: int, overlap: int) returns (chunks: seq<string>)
    requires ValidWindow(|text|, chunkSize, overlap)
    ensures chunks == Windows(text, chunkSize, overlap)
    ensures text == [] ==> chunks == []
    ensures 0 < |text| <= chunkSize ==> chunks == [text]
  {
    chunks := [];
    var start := 0;
    while start < |text|
      invariant start == Start(|chunks|, chunkSize, overlap)
      invariant forall j :: 0 <= j < |chunks| ==> Start(j, chunkSize, overlap) + chunkSize < |text|
      invariant |chunks| <= ChunkCount(|text|, chunkSize, overlap)
      invariant forall j :: 0 <= j < |chunks| ==> chunks[j] == Window(text, chunkSize, overlap, j)
      decreases |text| - start
    {
      var end := start + chunkSize;
      EmittedIff(|text|, chunkSize, overlap, |chunks|);
      var chunk := text[start..Min(end, |text|)];
      chunks := chunks + [chunk];
      if end >= |text| {
        break;
      }
      start := end - overlap;
      assert start == Start(|chunks|, chunkSize, overlap) by {
        assert |chunks| * (chunkSize - overlap) == (|chunks| - 1) * (chunkSize - overlap) + (chunkSize - overlap);
      }
    }
    EmittedIff(|text|, chunkSize, overlap, |chunks|);
    if 0 < |text| <= chunkSize {
      assert chunks[0] == text;
    }
  }

  /** Every emitted chunk is non-empty and at most `size` long; all but the last are exactly `size` long. */
  lemma WindowShape(text: string, size: int, overlap: int, k: nat)
    requires ValidWindow(|text|, size, overlap)
    requires k < ChunkCount(|text|, size, overlap)
    ensures 0 < |Window(text, size, overlap, k)| <= size
    ensures k + 1 < ChunkCount(|text|, size, overlap) ==> |Window(text, size, overlap, k)| == size
  {
    EmittedIff(|text|, size, overlap, k);
    EmittedIff(|text|, size, overlap, k + 1);
  }

  /** With a non-negative overlap the last chunk runs to the end of the text. */
  lemma LastWindowReachesEnd(text: string, size: int, overlap: int)
    requires ValidWindow(|text|, size, overlap) && 0 <= overlap
    requires text != []
    ensures ChunkCount(|text|, size, overlap) > 0
    ensures var c := ChunkCount(|text|, size, overlap);
            0 <= Start(c - 1, size, overlap) < |text| <= Start(c - 1, size, overlap) + size
    ensures var c := ChunkCount(|text|, size, overlap);
            Window(text, size, overlap, c - 1) == text[Start(c - 1, size, overlap)..]
  {
    var n, c := |text|, ChunkCount(|text|, size, overlap);
    EmittedIff(n, size, overlap, 0);
    EmittedIff(n, size, overlap, c - 1);
    EmittedIff(n, size, overlap, c);
    assert Start(c, size, overlap) == Start(c - 1, size, overlap) + (size - overlap);
  }

  /** Consecutive chunks share exactly `overlap` characters: the tail of chunk k is the head of chunk k + 1. */
  lemma ConsecutiveOverlap(text: string, size: int, overlap: int, k: nat)
    requires ValidWindow(|text|, size, overlap) && 0 <= overlap
    requires k + 1 < ChunkCount(|text|, size, overlap)
    ensures |Window(text, size, overlap, k)| == size
    ensures overlap < |Window(text, size, overlap, k + 1)|
    ensures Window(text, size, overlap, k)[size - overlap..] == Window(text, size, overlap, k + 1)[..overlap]
  {
    var n := |text|;
    EmittedIff(n, size, overlap, k);
    EmittedIff(n, size, overlap, k + 1);
    assert Start(k + 1, size, overlap) == Start(k, size, overlap) + (size - overlap);
    var s := Start(k, size, overlap);
    assert Window(text, size, overlap, k) == text[s..s + size];
    assert Window(text, size, overlap, k)[size - overlap..] == text[s + size - overlap..s + size];
  }

  /** Drop the first `overlap` characters of a chunk (all of it if it is shorter). */
  function DropOverlap(chunk: string, overlap: nat): string
  {
    chunk[Min(overlap, |chunk|)..]
  }

  /**
   * Reassembles a text from its chunks: the first chunk whole, and every
   * later chunk without the `overlap` characters it repeats from its
   * predecessor.
   */
  function Stitch(chunks: seq<string>, overlap: nat): string
  {
    if |chunks| == 0 then []
    else if |chunks| == 1 then chunks[0]
    else Stitch(chunks[..|chunks| - 1], overlap) + DropOverlap(chunks[|chunks| - 1], overlap)
  }

  lemma {:induction false} StitchPrefix(text: string, size: int, overlap: nat, m: nat)
    requires ValidWindow(|text|, size, overlap)
    requires 1 <= m <= ChunkCount(|text|, size, overlap)
    ensures 0 <= Start(m - 1, size, overlap) < |text|
    ensures Stitch(Windows(text, size, overlap)[..m], overlap)
            == text[..Min(Start(m - 1, size, overlap) + size, |text|)]
  {
    EmittedIff(|text|, size, overlap, m - 1);
    if m == 1 {
      StitchFirst(text, size, overlap);
    } else {
      StitchPrefix(text, size, overlap, m - 1);
      StitchNext(text, size, overlap, m - 1);
    }
  }

  lemma StitchFirst(text: string, size: int, overlap: nat)
    requires ValidWindow(|text|, size, overlap)
    requires 1 <= ChunkCount(|text|, size, overlap)
    ensures Stitch(Windows(text, size, overlap)[..1], overlap) == text[..Min(size, |text|)]
  {
    var ws := Windows(text, size, overlap);
    assert Start(0, size, overlap) == 0;
    assert ws[0] == Window(text, size, overlap, 0);
    assert ws[..1] == [ws[0]];
  }

  /** Stitching one more window extends the covered prefix of the text to that window's end. */
  lemma StitchNext(text: string, size: int, overlap: nat, k: nat)
    requires ValidWindow(|text|, size, overlap)
    requires 1 <= k < ChunkCount(|text|, size, overlap)
    requires 0 <= Start(k - 1, size, overlap) < |text|
    requires Stitch(Windows(text, size, overlap)[..k], overlap)
             == text[..Min(Start(k - 1, size, overlap) + size, |text|)]
    ensures Stitch(Windows(text, size, overlap)[..k + 1], overlap)
            == text[..Min(Start(k, size, overlap) + size, |text|)]
  {
    var ws := Windows(text, size, overlap);
    StitchStep(text, size, overlap, k);
    assert ws[k] == Window(text, size, overlap, k);
    StitchSnoc(ws, k, overlap);
    JoinSlices(text, Stitch(ws[..k], overlap), DropOverlap(ws[k], overlap),
               Start(k - 1, size, overlap) + size, Min(Start(k, size, overlap) + size, |text|));
  }

  lemma StitchSnoc(ws: seq<string>, k: nat, overlap: nat)
    requires 1 <= k < |ws|
    ensures Stitch(ws[..k + 1], overlap) == Stitch(ws[..k], overlap) + DropOverlap(ws[k], overlap)
  {
    assert ws[..k + 1][..k] == ws[..k];
  }

  lemma JoinSlices(text: string, a: string, b: string, mid: int, end: int)
    requires 0 <= mid <= end <= |text|
    requires a == text[..mid] && b == text[mid..end]
    ensures a + b == text[..end]
  {
  }

  /** One step of StitchPrefix: chunk k without its overlap continues where chunk k - 1 ended. */
  lemma StitchStep(text: string, size: int, overlap: nat, k: nat)
    requires ValidWindow(|text|, size, overlap)
    requires 1 <= k < ChunkCount(|text|, size, overlap)
    ensures 0 <= Start(k - 1, size, overlap) && Start(k - 1, size, overlap) + size <= |text|
    ensures Start(k - 1, size, overlap) + size <= Min(Start(k, size, overlap) + size, |text|)
    ensures DropOverlap(Window(text, size, overlap, k), overlap)
            == text[Start(k - 1, size, overlap) + size..Min(Start(k, size, overlap) + size, |text|)]
  {
    StartStep(k, size, overlap);
    EmittedIff(|text|, size, overlap, k - 1);
    EmittedIff(|text|, size, overlap, k);
    var s := Start(k, size, overlap);
    var e := Min(s + size, |text|);
    assert Start(k - 1, size, overlap) + size < |text|;
    var w := Window(text, size, overlap, k);
    assert w == text[s..e];
    assert Min(overlap, |w|) == overlap;
    assert DropOverlap(w, overlap) == w[overlap..] == text[s + overlap..e];
  }

  /** The chunks cover the text with no gap: stitching them back gives the text. */
  lemma StitchWindows(text: string, size: int, overlap: nat)
    requires ValidWindow(|text|, size, overlap)
    ensures Stitch(Windows(text, size, overlap), overlap) == text
  {
    var ws := Windows(text, size, overlap);
    if text != [] {
      var c := |ws|;
      LastWindowReachesEnd(text, size, overlap);
      StitchPrefix(text, size, overlap, c);
      assert ws[..c] == ws;
    }
  }

  /** A 600-character text with the defaults (500, 100) gives the chunks [0:500] and [400:600]. */
  lemma SixHundredCharacters(text: string)
    requires |text| == 600
    ensures Windows(text, DefaultChunkSize, DefaultOverlap) == [text[0..500], text[400..600]]
  {
    assert ChunkCount(600, 500, 100) == 2;
  }
}
