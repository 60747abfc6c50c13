/** The bookkeeping of `WebRAG`: cutting a document into overlapping word
    windows, the parallel chunk and url lists, and the GitHub raw-link
    rewrite. Embeddings, the FAISS index and the web requests are not
    modelled. */
module Rag {
  import opened Wrappers
  import opened Text

  /** Where the slice `[start:end]` stops, for `end = min(n, start + size)`: a
      negative end counts from the back of the list (`n + end`, at least 0),
      and an end before the start gives an empty slice. */
  function WindowEnd(n: nat, start: nat, size: int): (e: nat)
    requires start <= n
    ensures start <= e <= n
    ensures size >= 0 ==> e - start == if start + size < n then size else n - start
    ensures start + size < 0 ==> e == if n + start + size < start then start else n + start + size
    ensures 0 <= start + size < start ==> e == start
  {
    var end := if start + size < n then start + size else n;
    var stop := if end < 0 then (if n + end < 0 then 0 else n + end) else end;
    if stop < start then start else stop
  }

  /** The k-th chunk of `words`: the single-space join of the window starting at word k·step. */
  function ChunkAt(words: seq<string>, size: int, step: nat, k: nat): string
    requires k * step <= |words|
  {
    Join(words[k * step..WindowEnd(|words|, k * step, size)], " ")
  }

  /** `chunk_text`: windows of `chunkSize` words starting every
      `chunkSize - overlap` words, until a start passes the last word. With a
      step of zero or less and at least one word, the loop never ends, so
      that case is excluded. */
  method ChunkText(text: string, chunkSize: int, overlap: int) returns (chunks: seq<string>)
    requires chunkSize > overlap || Words(text) == []
    ensures Words(text) == [] ==> chunks == []
    ensures Words(text) != [] ==>
      var words := Words(text);
      var step := chunkSize - overlap;
      && step > 0
      && |chunks| > 0
      && (|chunks| - 1) * step < |words| <= |chunks| * step
      && IsChunking(words, chunkSize, step, chunks)
  {
    var words := Words(text);
    chunks := [];
    if words == [] {
      return;
    }
    var step := chunkSize - overlap;
    var start := 0;
    while start < |words|
      invariant start == |chunks| * step
      invariant |chunks| > 0 ==> start - step < |words|
      invariant IsChunking(words, chunkSize, step, chunks)
      decreases |words| - start
    {
      // words[start:min(len(words), start + chunk_size)]
      var chunk := Join(words[start..WindowEnd(|words|, start, chunkSize)], " ");
      ChunkingSnoc(words, chunkSize, step, chunks, chunk);
      NextStart(|chunks|, step);
      chunks := chunks + [chunk];
      start := start + (chunkSize - overlap);
    }
    NextStart(|chunks| - 1, step);
  }

  /** A negative chunk size counts the window's end from the back: ten words
      with a size of -5 cut the first window at word 5. */
  lemma NegativeSizeCountsFromBack()
    ensures WindowEnd(10, 0, -5) == 5
    ensures WindowEnd(10, 5, -5) == 5
  {
  }

  lemma NextStart(n: nat, step: nat)
    ensures (n + 1) * step == n * step + step
  {
  }

  /** `chunks` are the first |chunks| windows of `words`. */
  predicate IsChunking(words: seq<string>, size: int, step: nat, chunks: seq<string>) {
    forall k :: 0 <= k < |chunks| ==> k * step <= |words| && chunks[k] == ChunkAt(words, size, step, k)
  }

  lemma ChunkingSnoc(words: seq<string>, size: int, step: nat, chunks: seq<string>, chunk: string)
    requires IsChunking(words, size, step, chunks)
    requires |chunks| * step < |words|
    requires chunk == Join(words[|chunks| * step..WindowEnd(|words|, |chunks| * step, size)], " ")
    ensures IsChunking(words, size, step, chunks + [chunk])
  {
  }

  /** Splitting a chunk on whitespace gives back exactly its word window, so
      with a positive size no chunk holds more than `size` words. */
  lemma ChunkWords(words: seq<string>, size: int, step: nat, k: nat)
    requires forall i :: 0 <= i < |words| ==> IsWord(words[i])
    requires k * step <= |words|
    ensures Words(ChunkAt(words, size, step, k)) == words[k * step..WindowEnd(|words|, k * step, size)]
    ensures size >= 0 ==> |Words(ChunkAt(words, size, step, k))| <= size
  {
    var w := words[k * step..WindowEnd(|words|, k * step, size)];
    assert forall i :: 0 <= i < |w| ==> IsWord(w[i]) by {
      forall i | 0 <= i < |w| ensures IsWord(w[i]) {
        assert w[i] == words[k * step + i];
      }
    }
    WordsOfJoin(w);
  }

  /** With a step of at most the chunk size (a non-negative overlap) every
      word lies in the window of chunk `i / step`, and the last window
      reaches the final word. */
  lemma ChunksCoverWords(n: nat, size: int, step: nat, count: nat, i: nat)
    requires 0 < step <= size
    requires 0 < count && (count - 1) * step < n <= count * step
    requires i < n
    ensures var k := i / step;
      && k < count
      && k * step <= i
      && i < WindowEnd(n, k * step, size)
    ensures WindowEnd(n, (count - 1) * step, size) == n
  {
    var k := i / step;
    DivBounds(i, step);
    if k >= count {
      MulMono(count, k, step);
      assert false;
    }
    NextStart(count - 1, step);
  }

  lemma DivBounds(i: nat, step: nat)
    requires 0 < step
    ensures (i / step) * step <= i < (i / step) * step + step
  {
  }

  lemma MulMono(a: nat, b: nat, c: nat)
    requires a <= b
    ensures a * c <= b * c
  {
  }

  /** `fetch_page`'s link rewrite: only a link holding both "github.com" and
      "/blob/" changes; then every "github.com" becomes
      "raw.githubusercontent.com" and, after that, every "/blob/" becomes "/". */
  function RawGithubUrl(url: string): (r: string)
    ensures !(Contains(url, "github.com") && Contains(url, "/blob/")) ==> r == url
  {
    if Contains(url, "github.com") && Contains(url, "/blob/") then
      Replace(Replace(url, "github.com", "raw.githubusercontent.com"), "/blob/", "/")
    else url
  }

  /** The rewrite cuts the link at every occurrence and glues the pieces back
      with the replacement, first for the host and then for "/blob/". */
  lemma RawGithubUrlCutsEveryOccurrence(url: string)
    requires Contains(url, "github.com") && Contains(url, "/blob/")
    ensures RawGithubUrl(url) ==
      Join(SplitOn(Join(SplitOn(url, "github.com"), "raw.githubusercontent.com"), "/blob/"), "/")
  {
    var u := Replace(url, "github.com", "raw.githubusercontent.com");
    ReplaceIsJoinOfSplit(url, "github.com", "raw.githubusercontent.com");
    ReplaceIsJoinOfSplit(u, "/blob/", "/");
  }

  class WebRag {
    /** The indexed chunks and, at the same positions, the url each came from. */
    var chunks: seq<string>
    var urls: seq<string>

    ghost predicate Valid()
      reads this
    {
      |chunks| == |urls|
    }

    /** An index opened where no saved index exists. */
    constructor ()
      ensures Valid() && chunks == [] && urls == []
    {
      chunks := [];
      urls := [];
    }

    /** `add_document`: every chunk of the text is appended, each paired with `url`. */
    method AddDocument(text: string, url: string)
      requires Valid()
      modifies this
      ensures Valid()
      ensures |chunks| >= |old(chunks)| && chunks[..|old(chunks)|] == old(chunks) && urls[..|old(urls)|] == old(urls)
      ensures forall k :: |old(urls)| <= k < |urls| ==> urls[k] == url
      ensures Words(text) == [] ==> chunks == old(chunks)
      ensures Words(text) != [] ==>
        var count := |chunks| - |old(chunks)|;
        && 0 < count && (count - 1) * 450 < |Words(text)| <= count * 450
        && IsChunking(Words(text), 500, 450, chunks[|old(chunks)|..])
    {
      var added := ChunkText(text, 500, 50);
      for i := 0 to |added|
        invariant |chunks| == |urls| == |old(chunks)| + i
        invariant chunks == old(chunks) + added[..i]
        invariant urls[..|old(urls)|] == old(urls)
        invariant forall k :: |old(urls)| <= k < |urls| ==> urls[k] == url
      {
        chunks := chunks + [added[i]];
        urls := urls + [url];
        assert added[..i + 1] == added[..i] + [added[i]];
      }
      assert added[..|added|] == added;
      assert chunks[|old(chunks)|..] == added;
    }
  }
}
