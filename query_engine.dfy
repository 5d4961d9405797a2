/** The command-line query engine: `get_context_text` builds a tagged context
    from the search hits, and `rag_query_groq` sends it with the question to the
    chat model. */
module QueryEngine {
  import opened Wrappers
  import opened Strings
  import opened Paths
  import opened Retrieval
  import opened Chat

  const TopK: nat := 5
  const NoContext: string := "No relevant context found."
  const SystemPrompt: string :=
    "You are a financial analysis assistant. "
    + "Use the CONTEXT to answer the QUESTION factually, concisely, "
    + "and with reasoning. Always cite sources as [sec], [news], or [market]."
  const ErrorPrefix: string := "\U{26A0}\U{FE0F} Error while querying Groq: "

  /** `f"[{meta['source']}] {text_snippet}"` */
  function Block(h: Hit): string
  {
    "[" + h.source + "] " + h.text
  }

  function Blocks(hs: seq<Hit>): (blocks: seq<string>)
    ensures |blocks| == |hs|
  {
    seq(|hs|, i requires 0 <= i < |hs| => Block(hs[i]))
  }

  /** The sentinel when nothing was retrieved, else the blocks separated by blank lines. */
  function ContextOf(hs: seq<Hit>): string
  {
    if hs == [] then NoContext else Join("\n\n", Blocks(hs))
  }

  /** A block carries its source tag in front and the chunk text after it. */
  lemma BlockLayout(h: Hit)
    ensures StartsWith(Block(h), "[" + h.source + "] ")
    ensures Block(h)[|h.source| + 3..] == h.text
  {
    assert Block(h) == ("[" + h.source + "] ") + h.text;
  }

  /** The sentinel appears exactly when no hit survived: a non-empty context starts
      with a block's `[`, the sentinel with `N`. */
  lemma SentinelIffEmpty(hs: seq<Hit>)
    ensures ContextOf(hs) == NoContext <==> hs == []
  {
    if hs != [] {
      var blocks := Blocks(hs);
      assert blocks[0] == Block(hs[0]);
      assert blocks[0][0] == '[';
      JoinHead("\n\n", blocks);
      assert ContextOf(hs)[0] == '[';
      assert NoContext[0] == 'N';
    }
  }

  /** `get_context_text` after the search: the hits' chunks in search order, tagged
      with their source and joined, or the sentinel; a hit whose file is missing is
      skipped, and an out-of-range `chunk_id` raises. */
  method GetContextText(hits: seq<int>, metadata: seq<MetaRecord>, store: ChunkStore)
    returns (r: Result<string, Fault>)
    requires ValidHits(hits, metadata)
    ensures r == match ResolveAll(metadata, store, hits)
                 case Err(e) => Err(e)
                 case Ok(hs) => Ok(ContextOf(hs))
  {
    var blocks: seq<string> := [];
    ghost var hs: seq<Hit> := [];
    var i := 0;
    while i < |hits|
      invariant 0 <= i <= |hits|
      invariant ValidHits(hits[..i], metadata)
      invariant ResolveAll(metadata, store, hits[..i]) == Ok(hs)
      invariant blocks == Blocks(hs)
    {
      ResolveAllSnoc(metadata, store, hits, i);
      var meta := metadata[hits[i]];
      var filePath := ChunkPath(meta);
      if Key(filePath) !in store {
        i := i + 1;
        continue;
      }
      var chunkData := store[Key(filePath)];
      var snippet := PyIndex(chunkData, meta.chunkId);
      if snippet.None? {
        assert Resolve(metadata, store, hits[i]) == Err(IndexError);
        ResolveAllErrSticks(metadata, store, hits, i + 1);
        assert ResolveAll(metadata, store, hits).error.IndexError?;
        return Err(IndexError);
      }
      var h := Hit(meta.source, meta.file, snippet.value.text);
      blocks := blocks + [Block(h)];
      hs := hs + [h];
      i := i + 1;
    }
    assert hits[..i] == hits;
    if |blocks| == 0 {
      return Ok(NoContext);
    }
    return Ok(Join("\n\n", blocks));
  }

  /** With the `top_k` hits of one search, at most `top_k` blocks are retrieved. */
  lemma AtMostTopK(hits: seq<int>, metadata: seq<MetaRecord>, store: ChunkStore)
    requires ValidHits(hits, metadata) && |hits| == TopK
    requires ResolveAll(metadata, store, hits).Ok?
    ensures |Blocks(ResolveAll(metadata, store, hits).value)| <= TopK
  {
    ResolveAllBound(metadata, store, hits);
  }

  /** `rag_query_groq` after the search: a lookup error from `get_context_text`
      escapes (it is raised before the `try`); a failure of the chat call becomes an
      error reply. */
  method RagQueryGroq(query: string, hits: seq<int>, metadata: seq<MetaRecord>, store: ChunkStore, chat: ChatModel)
    returns (r: Result<string, Fault>)
    requires ValidHits(hits, metadata)
    ensures r == match ResolveAll(metadata, store, hits)
                 case Err(e) => Err(e)
                 case Ok(hs) => Ok(Reply(ErrorPrefix, chat(SystemPrompt, UserMessage(ContextOf(hs), query))))
  {
    var context := GetContextText(hits, metadata, store);
    if context.Err? {
      return Err(context.error);
    }
    var completion := chat(SystemPrompt, UserMessage(context.value, query));
    return Ok(Reply(ErrorPrefix, completion));
  }
}
