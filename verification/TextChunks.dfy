/** Full texts are cut into overlapping chunks for retrieval. */
module TextChunks {
  import opened Options

  function Min(a: int, b: int): int {
    if a < b then a else b
  }

  function Max(a: int, b: int): int {
    if a > b then a else b
  }

  // ----- the reference -----

  /** The chunks of a non-empty text. */
  function Chunks(text: string, size: nat, overlap: nat): seq<string>
    requires text != "" && (overlap < size || |text| <= size)
    decreases |text|
  {
    if |text| <= size then [text]
    else [text[..size]] + Chunks(text[size - overlap..], size, overlap)
  }

  /** Put chunks together again, leaving out what the next one repeats. */
  function Rejoined(chunks: seq<string>, overlap: nat): string {
    if chunks == [] then ""
    else chunks[0] + Tails(chunks[1..], overlap)
  }

  function Tails(chunks: seq<string>, overlap: nat): string {
    if chunks == [] then ""
    else (if overlap <= |chunks[0]| then chunks[0][overlap..] else "") + Tails(chunks[1..], overlap)
  }

  /** Nothing of the text is lost and nothing is added. */
  lemma {:induction false} ChunksRejoin(text: string, size: nat, overlap: nat)
    requires text != "" && (overlap < size || |text| <= size)
    ensures Rejoined(Chunks(text, size, overlap), overlap) == text
    ensures Chunks(text, size, overlap) != []
    decreases |text|
  {
    if |text| > size {
      var rest := text[size - overlap..];
      ChunksRejoin(rest, size, overlap);
      var cs := Chunks(rest, size, overlap);
      ChunksStart(rest, size, overlap);
      assert Rejoined(cs, overlap)[overlap..] == Tails(cs, overlap);
      assert rest[overlap..] == text[size..];
      assert Chunks(text, size, overlap)[1..] == cs;
    }
  }

  /** The first chunk is the beginning of the text, and reaches behind the overlap. */
  lemma ChunksStart(text: string, size: nat, overlap: nat)
    requires text != "" && (overlap < size || |text| <= size)
    ensures Chunks(text, size, overlap) != []
    ensures Chunks(text, size, overlap)[0] == text[..Min(|text|, size)]
  {}

  /** All chunks but the last are full, none is empty, and neighbours share exactly the overlap. */
  lemma {:induction false} ChunksOverlap(text: string, size: nat, overlap: nat, i: nat)
    requires text != "" && overlap < size && i < |Chunks(text, size, overlap)|
    ensures var cs := Chunks(text, size, overlap);
            && 0 < |cs[i]| <= size
            && (i + 1 < |cs| ==> |cs[i]| == size && overlap <= |cs[i + 1]| && cs[i][size - overlap..] == cs[i + 1][..overlap])
    decreases |text|
  {
    if |text| > size {
      var rest := text[size - overlap..];
      ChunksStart(rest, size, overlap);
      if i == 0 {
        assert text[..size][size - overlap..] == rest[..overlap];
      } else {
        ChunksOverlap(rest, size, overlap, i - 1);
      }
    }
  }

  // ----- the code -----

  /** `chunk_text`, after white space has been collapsed. */
  method ChunkText(clean: string, size: nat, overlap: nat) returns (chunks: seq<string>)
    requires overlap < size || |clean| <= size
    ensures chunks == if clean == "" then [] else Chunks(clean, size, overlap)
  {
    chunks := [];
    if clean == "" {
      return;
    }
    var start := 0;
    assert clean[0..] == clean;
    while start < |clean|
      invariant 0 <= start < |clean| && (overlap < size || |clean[start..]| <= size)
      invariant chunks + Chunks(clean[start..], size, overlap) == Chunks(clean, size, overlap)
      decreases |clean| - start
    {
      var end := Min(|clean|, start + size);
      ghost var rest := clean[start..];
      chunks := chunks + [clean[start..end]];
      if end == |clean| {
        assert clean[start..end] == rest && Chunks(rest, size, overlap) == [rest];
        break;
      }
      assert clean[start..end] == rest[..size];
      NextChunk(chunks[..|chunks| - 1], rest, size, overlap);
      start := Max(0, end - overlap);
      assert clean[start..] == rest[size - overlap..];
    }
  }

  lemma NextChunk(done: seq<string>, text: string, size: nat, overlap: nat)
    requires |text| > size > overlap
    ensures done + Chunks(text, size, overlap) == done + [text[..size]] + Chunks(text[size - overlap..], size, overlap)
  {}

  /** Where the loop stands after k iterations on a text of length n; None once it has left. */
  function StartAfter(n: nat, size: nat, overlap: nat, k: nat): Option<int> {
    if k == 0 then (if n == 0 then None else Some(0))
    else
      var before := StartAfter(n, size, overlap, k - 1);
      if before.None? then None
      else
        var end := Min(n, before.value + size);
        if end == n then None else Some(Max(0, end - overlap))
  }

  lemma {:induction false} StuckAtStart(n: nat, size: nat, overlap: nat, k: nat)
    requires size <= overlap && size < n
    ensures StartAfter(n, size, overlap, k) == Some(0)
  {
    if k > 0 {
      StuckAtStart(n, size, overlap, k - 1);
    }
  }

  lemma {:induction false} Progress(n: nat, size: nat, overlap: nat, k: nat)
    requires overlap < size
    ensures var s := StartAfter(n, size, overlap, k); s.Some? ==> k <= s.value < n
  {
    if k > 0 {
      Progress(n, size, overlap, k - 1);
    }
  }

  /** The loop ends exactly when the overlap is smaller than the chunks, or one chunk is enough. */
  lemma EndsExactlyWhen(n: nat, size: nat, overlap: nat)
    ensures (exists k: nat :: StartAfter(n, size, overlap, k) == None) <==> (overlap < size || n <= size)
  {
    if overlap < size {
      Progress(n, size, overlap, n);
      assert StartAfter(n, size, overlap, n) == None;
    } else if n <= size {
      assert StartAfter(n, size, overlap, 0) == None || StartAfter(n, size, overlap, 1) == None;
    } else {
      forall k: nat ensures StartAfter(n, size, overlap, k) != None {
        StuckAtStart(n, size, overlap, k);
      }
    }
  }
}
