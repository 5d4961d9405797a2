/** The web front end: `get_context` returns the retrieved chunks as
    `(source, file, snippet)` triples, the analysis joins the bare snippets
    into the context, and `generate_answer` asks the chat model. */
module App {
  import opened Wrappers
  import opened Strings
  import opened Paths
  import opened Retrieval
  import opened Chat
  import Cleaner

  const DefaultTopK: nat := 5
  const SystemPrompt: string :=
    "You are a financial analysis assistant. "
    + "Use the CONTEXT to answer the QUESTION factually and concisely. "
    + "Always cite sources like [sec], [news], or [market]."
  const ErrorPrefix: string := "\U{26A0}\U{FE0F} Error while querying Groq API: "

  /** `get_context` after the search: one `(source, file, snippet)` triple per hit whose
      chunk file exists, in search order; an out-of-range `chunk_id` raises. */
  method GetContext(hits: seq<int>, metadata: seq<MetaRecord>, store: ChunkStore)
    returns (r: Result<seq<Hit>, Fault>)
    requires ValidHits(hits, metadata)
    ensures r == ResolveAll(metadata, store, hits)
  {
    var results: seq<Hit> := [];
    var i := 0;
    while i < |hits|
      invariant 0 <= i <= |hits|
      invariant ValidHits(hits[..i], metadata)
      invariant ResolveAll(metadata, store, hits[..i]) == Ok(results)
    {
      ResolveAllSnoc(metadata, store, hits, i);
      var meta := metadata[hits[i]];
      var filePath := ChunkPath(meta);
      if Key(filePath) !in store {
        i := i + 1;
        continue;
      }
      var data := store[Key(filePath)];
      var snippet := PyIndex(data, meta.chunkId);
      if snippet.None? {
        assert Resolve(metadata, store, hits[i]) == Err(IndexError);
        ResolveAllErrSticks(metadata, store, hits, i + 1);
        assert ResolveAll(metadata, store, hits).error.IndexError?;
        return Err(IndexError);
      }
      results := results + [Hit(meta.source, meta.file, snippet.value.text)];
      i := i + 1;
    }
    assert hits[..i] == hits;
    return Ok(results);
  }

  /** With the default `top_k` hits, at most `top_k` triples come back. */
  lemma AtMostTopK(hits: seq<int>, metadata: seq<MetaRecord>, store: ChunkStore)
    requires ValidHits(hits, metadata) && |hits| == DefaultTopK
    requires ResolveAll(metadata, store, hits).Ok?
    ensures |ResolveAll(metadata, store, hits).value| <= DefaultTopK
  {
    ResolveAllBound(metadata, store, hits);
  }

  function Snippets(hs: seq<Hit>): (snippets: seq<string>)
    ensures |snippets| == |hs|
  {
    seq(|hs|, i requires 0 <= i < |hs| => hs[i].text)
  }

  /** `"\n\n".join([r[2] for r in retrieved])`: the snippets alone, no source tags. */
  function ContextText(hs: seq<Hit>): string
  {
    Join("\n\n", Snippets(hs))
  }

  /** The context is the snippets' text plus one blank-line separator per gap, and
      nothing at all (no sentinel) when nothing was retrieved. */
  lemma ContextTextLength(hs: seq<Hit>)
    ensures hs == [] ==> ContextText(hs) == ""
    ensures hs != [] ==> |ContextText(hs)| == TotalLength(Snippets(hs)) + 2 * (|hs| - 1)
  {
    if hs != [] {
      JoinLength("\n\n", Snippets(hs));
    }
  }

  /** `generate_answer`: the model's answer to the context and question, or the
      error reply when the call fails. */
  function GenerateAnswer(query: string, contextText: string, chat: ChatModel): string
  {
    Reply(ErrorPrefix, chat(SystemPrompt, UserMessage(contextText, query)))
  }

  /** A failed call yields `⚠️ Error while querying Groq API: ` and the message. */
  lemma GenerateAnswerFailure(query: string, contextText: string, chat: ChatModel)
    ensures chat(SystemPrompt, UserMessage(contextText, query)).Raised? ==>
              var answer := GenerateAnswer(query, contextText, chat);
              StartsWith(answer, ErrorPrefix)
              && answer[|ErrorPrefix|..] == chat(SystemPrompt, UserMessage(contextText, query)).message
  {
    ReplyOfFailure(ErrorPrefix, chat(SystemPrompt, UserMessage(contextText, query)));
  }

  /** The "Run Analysis" action: nothing unless the button was pressed and the query
      is not blank; otherwise the retrieved triples and the answer over their snippets. */
  method RunAnalysis(pressed: bool, query: string, hits: seq<int>, metadata: seq<MetaRecord>, store: ChunkStore,
                     chat: ChatModel)
    returns (r: Option<Result<(string, seq<Hit>), Fault>>)
    requires ValidHits(hits, metadata)
    ensures !pressed || Cleaner.Strip(query) == "" ==> r == None
    ensures pressed && Cleaner.Strip(query) != "" ==>
              r == Some(match ResolveAll(metadata, store, hits)
                        case Err(e) => Err(e)
                        case Ok(hs) => Ok((GenerateAnswer(query, ContextText(hs), chat), hs)))
  {
    if !pressed || Cleaner.Strip(query) == "" {
      return None;
    }
    var retrieved := GetContext(hits, metadata, store);
    if retrieved.Err? {
      return Some(Err(retrieved.error));
    }
    var contextText := Join("\n\n", Snippets(retrieved.value));
    var answer := GenerateAnswer(query, contextText, chat);
    return Some(Ok((answer, retrieved.value)));
  }
}
