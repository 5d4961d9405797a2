# financial-rag, modelled in Dafny

This project models the bookkeeping of the financial-rag pipeline. The pipeline has five stages:

- **Cleaning.** It cleans raw SEC filings, news articles and market tables into plain text.
- **Chunking.** It cuts each cleaned text into numbered chunks and writes them under `data/chunks`, mirroring the input tree.
- **Loading.** It reads the chunk tree back into two lists kept in lockstep, the chunk texts and their metadata records (the catalog).
- **Indexing.** It embeds the texts into a flat vector index whose positions match the catalog's.
- **Answering.** At query time, the command-line query engine and the web front end resolve the index's hit positions through the catalog back to chunk files. They build a context from the chunks and send it with the question to a chat model.

The embedding model, the vector search, the text splitter and the chat model are parameters. Each is an arbitrary function, or an input sequence of positions in the case of the search. Everything else is modelled on values:

- the string transformations;
- the output naming;
- the directory walks;
- the chunk numbering;
- the catalog;
- the lookups.

A directory tree is a map from normalised paths to file contents. Normalisation drops empty and `.` components. A walk is an ordered list of directories, each with its files. The stages that loop and append are methods with loop invariants, proved against functions of their inputs.

Modules, one per file:

- `Wrappers`: `Option` and `Result`.
- `Strings`:
  - Python's `str.join`, `str.replace`, `startswith` and `endswith`;
  - subsequences;
  - counting.
- `Paths`:
  - `os.path.join` and `os.path.relpath`;
  - path keys;
  - writing files in order;
  - walk listings.
- `Cleaner`: `backend/preprocess/cleaner.py`.
- `Chunker`: `backend/preprocess/chunker.py`.
- `Retrieval`: the per-hit lookup that `get_context_text` and `get_context` share. It covers the metadata record, the chunk path, Python list indexing and `IndexError`.
- `EmbedIndexer`: `backend/vectorstore/embed_indexer.py`.
- `Chat`: the user-prompt format and the conversion of a failed chat call into a reply.
- `QueryEngine`: `backend/rag/query_engine.py`.
- `App`: `frontend/app.py`.
- `Pipeline`: the cross-stage property. The chunker numbers the chunks of each file by position. The loader copies the ids and derives `source` from the directory. The retriever rebuilds `data/chunks/{source}/{file}` and indexes by `chunk_id`. Together these mean every catalog position resolves back to the text it was built from. No lookup is skipped and none raises.

Three behaviours of the code shape the model:

- **Out-of-range `chunk_id`.** An out-of-range `chunk_id` raises. `chunk_data[meta["chunk_id"]]` (`backend/rag/query_engine.py:67`, `frontend/app.py:70`) ends both retrievers in `Err(IndexError)`; no hit is skipped for it. A negative id within range counts from the end of the list, as in Python.
- **No sentinel in the web front end.** Only the query engine returns `"No relevant context found."` for zero resolved hits (`backend/rag/query_engine.py:70-71`). The web front end has no sentinel: `"\n\n".join([])` (`frontend/app.py:110`) gives `""`.
- **Every source is `.`.** The three `process_clean_dir` calls (`backend/preprocess/chunker.py:54-56`) each walk a flat cleaned directory. So `rel_dir` is `.` (line 39) and every chunk file lands directly in `data/chunks` (`Chunker.FlatRunWrites`). The loader then records `source` `.` for every chunk (`backend/vectorstore/embed_indexer.py:36`). So every block `get_context_text` builds is tagged `[.] ` (`backend/rag/query_engine.py:68`), never the `[sec]`, `[news]` or `[market]` that the system prompt (line 85) asks the model to cite (`Pipeline.FlatTreeTags`).

## Model

| member | source | states |
|---|---|---|
| Cleaner.CollapseSpaces | backend/preprocess/cleaner.py:8 | Defines `re.sub(r"\s+", " ", text)`. The result is no longer than the input. |
| Cleaner.CollapseSpacesSound | backend/preprocess/cleaner.py:8 | Every whitespace character left is a space. No two whitespace characters are adjacent. The result starts with whitespace exactly when the input does. |
| Cleaner.CollapseRun | backend/preprocess/cleaner.py:8 | Each maximal whitespace run becomes exactly one space, in place. If `w` is a non-empty run of whitespace, `x` is empty or ends in non-whitespace, and `y` is empty or starts with non-whitespace, then `x + w + y` collapses to the collapse of `x`, one space, then the collapse of `y`. |
| Cleaner.CollapseKeepsText | backend/preprocess/cleaner.py:8 | Collapsing only rewrites whitespace: the non-whitespace characters survive unchanged and in order. |
| Cleaner.KeepAllowed | backend/preprocess/cleaner.py:9 | Every character kept is in the allowed class, and the result is a subsequence of the input. |
| Cleaner.KeepAllowedCounts | backend/preprocess/cleaner.py:9 | Each allowed character occurs as often as in the input. Each disallowed character does not occur at all. |
| Cleaner.LeadingSpaces | backend/preprocess/cleaner.py:10 | The length of the maximal whitespace prefix. |
| Cleaner.TrailingSpaces | backend/preprocess/cleaner.py:10 | The length of the maximal whitespace suffix. |
| Cleaner.Strip | backend/preprocess/cleaner.py:10 | The result is the slice of the input that starts right after the leading whitespace. Only whitespace follows it. The result neither starts nor ends with whitespace. |
| Cleaner.StripUnpadded | backend/preprocess/cleaner.py:10 | A non-empty text whose first and last characters are not whitespace is its own strip. |
| Cleaner.CleanText | backend/preprocess/cleaner.py:6-10 | Defines `clean_text` as its three steps in order: collapse whitespace runs, delete the characters outside the allowed class, strip. Its properties are stated by `Cleaner.CleanTextSound`. |
| Cleaner.CleanTextSound | backend/preprocess/cleaner.py:6-10 | The output has only allowed characters. Its only whitespace is the plain space. It neither starts nor ends with a space. It is no longer than the input. It is a subsequence of the whitespace-collapsed input. |
| Cleaner.CleanTextHasNoNewline | backend/preprocess/cleaner.py:8-10 | Cleaned text contains no newline. |
| Cleaner.CleanTextNotIdempotent | backend/preprocess/cleaner.py:8-10 | `clean_text("a ! b")` is `"a  b"`, and cleaning that again gives `"a b"`, so cleaning is not idempotent. |
| Cleaner.CleanFirstPass | backend/preprocess/cleaner.py:8-10 | The first pass over `"a ! b"` leaves a double space. |
| Cleaner.CleanSecondPass | backend/preprocess/cleaner.py:8-10 | The second pass collapses that double space. |
| Cleaner.CollapseFirst | backend/preprocess/cleaner.py:8 | `"a ! b"` has no whitespace run to collapse. |
| Cleaner.KeepFirst | backend/preprocess/cleaner.py:9 | Deleting `!` from `"a ! b"` leaves two adjacent spaces. |
| Cleaner.CollapseSecond | backend/preprocess/cleaner.py:8 | `"a  b"` collapses to `"a b"`. |
| Cleaner.SecText | backend/preprocess/cleaner.py:16-20 | Defines `all_text` for one ticker directory: each `.txt` file's contents followed by `"\n"`, in listing order. |
| Cleaner.FieldText | backend/preprocess/cleaner.py:34 | Defines the rendering of one `art.get(key, '')` inside the f-string. A missing key gives `""`, a string gives itself, and JSON `null` gives `None`. |
| Cleaner.ArticleText | backend/preprocess/cleaner.py:34 | Defines the f-string text of one article: title, description and content, separated by single spaces. |
| Cleaner.CleanName | backend/preprocess/cleaner.py:37 | Defines the output name: every occurrence of the extension replaced by `_clean.txt`. Line 48 uses it with `.csv`. |
| Cleaner.SecOutput | backend/preprocess/cleaner.py:21-23 | Defines what one ticker directory writes: `<out_dir>/<ticker>_clean.txt` holding the cleaned SEC text. |
| Cleaner.NewsOutput | backend/preprocess/cleaner.py:29-39 | Defines what one news file writes: nothing unless it ends in `.json`, else the renamed path holding the merged cleaned articles. |
| Cleaner.MarketOutput | backend/preprocess/cleaner.py:45-50 | Defines what one market file writes: nothing unless it ends in `.csv`, else the renamed path holding the rendered table. |
| Cleaner.AssembleSecText | backend/preprocess/cleaner.py:16-20 | `all_text` is the contents of the `.txt` files, each followed by `"\n"`, in listing order. |
| Cleaner.SecTextAppend | backend/preprocess/cleaner.py:17-20 | The SEC text of two listings in sequence is the concatenation of their SEC texts. |
| Cleaner.SecTextIgnores | backend/preprocess/cleaner.py:18 | A file not ending in `.txt` contributes nothing, wherever it is listed. |
| Cleaner.CleanSecFilings | backend/preprocess/cleaner.py:12-23 | The directory afterwards equals the old one overwritten, ticker by ticker in listing order. Each ticker gets `<ticker>_clean.txt` holding the cleaned SEC text. |
| Cleaner.CleanedArticles | backend/preprocess/cleaner.py:33-35 | There is one cleaned text per article. |
| Cleaner.CleanedArticlesSnoc | backend/preprocess/cleaner.py:33-35 | Cleaning one more article appends its cleaned f-string text. |
| Cleaner.MergeArticles | backend/preprocess/cleaner.py:32-36 | `merged` is the cleaned articles, in input order, joined with `"\n\n"`. It holds exactly 2(n-1) newlines, so the separators are the only newlines. |
| Cleaner.MergedNewlines | backend/preprocess/cleaner.py:36 | A join of n cleaned articles holds exactly 2(n-1) newlines. |
| Cleaner.CleanedHaveNoNewline | backend/preprocess/cleaner.py:35 | No cleaned article contains a newline. |
| Cleaner.CleanNews | backend/preprocess/cleaner.py:26-39 | Every `.json` file, in listing order, overwrites the old directory. Its merged cleaned articles are written under the name with `.json` replaced by `_clean.txt`. Other files are skipped. |
| Cleaner.NewsOutputOrigin | backend/preprocess/cleaner.py:28-37 | Every news output comes from one listed `.json` file. It sits at that file's renamed path and holds the file's merged articles. |
| Cleaner.CleanMarket | backend/preprocess/cleaner.py:42-50 | Every `.csv` file, in listing order, is written under the name with `.csv` replaced by `_clean.txt`. Other files are skipped. |
| Cleaner.CleanNameOf | backend/preprocess/cleaner.py:37 | A `.json` name (and, at line 48, a `.csv` name) becomes a name ending in `_clean.txt`. For a stem that does not contain the extension, the new name is the stem plus `_clean.txt`. |
| Chunker.Enumerate | backend/preprocess/chunker.py:20 | There is one chunk per splitter piece. |
| Chunker.ChunkTextFile | backend/preprocess/chunker.py:5-21 | Defines `chunk_text_file` after the read: the splitter's pieces, numbered by position. |
| Chunker.ChunkTextFileNumbering | backend/preprocess/chunker.py:13-21 | The chunk ids are exactly 0..n-1 in order, and the texts are the splitter's output. |
| Chunker.EnumerateInverse | backend/preprocess/chunker.py:20 | Reading the texts back out of numbered chunks gives the pieces. A chunk list is well numbered exactly when it equals the numbering of its own texts. |
| Chunker.SaveDir | backend/preprocess/chunker.py:39-40 | Defines `save_dir`: `output_dir` joined with the walk directory's path relative to `input_dir`. |
| Chunker.SaveName | backend/preprocess/chunker.py:43 | Defines `base_name`: every `.txt` in the file name replaced by `_chunks.json`. |
| Chunker.SavePath | backend/preprocess/chunker.py:44 | Defines `save_path`: `save_dir` joined with `base_name`. |
| Chunker.FileWrite | backend/preprocess/chunker.py:31-47 | Defines what one listed file writes: nothing unless it ends in `.txt`, else its chunk list at its save path. |
| Chunker.EntryWrites | backend/preprocess/chunker.py:30-47 | Defines the chunk files written for a list of walk entries, in order. |
| Chunker.ChunkWrites | backend/preprocess/chunker.py:30-47 | Defines the chunk files one `process_clean_dir` call writes, directory by directory and file by file. |
| Chunker.ProcessCleanDir | backend/preprocess/chunker.py:24-47 | The store afterwards equals the old store with one chunk file written per listed `.txt` file, in walk order. A later write replaces an earlier one. |
| Chunker.ProcessDirFiles | backend/preprocess/chunker.py:31-47 | The inner loop over one walk directory's files extends the writes so far by exactly that directory's writes, in listing order. |
| Chunker.EntryWritesSnoc | backend/preprocess/chunker.py:30-47 | One more listed file writes its chunk file when it ends in `.txt`, and nothing otherwise. |
| Chunker.EntryWritesOrigin | backend/preprocess/chunker.py:30-47 | Every chunk file written comes from one listed entry. |
| Chunker.ChunkWritesOrigin | backend/preprocess/chunker.py:30-47 | Every chunk file written comes from one listed `.txt` file. It sits at that file's save path and holds that file's chunks. |
| Chunker.SkipsOtherFiles | backend/preprocess/chunker.py:32-33 | A file not ending in `.txt` writes nothing. |
| Chunker.SaveNameOf | backend/preprocess/chunker.py:43 | A `.txt` name becomes a `_chunks.json` name. For a stem without `.txt`, the new name is the stem plus `_chunks.json`. |
| Chunker.RelPathRelative | backend/preprocess/chunker.py:39 | The relative directory of a walk directory never starts with `/`. |
| Chunker.MirroredSavePath | backend/preprocess/chunker.py:39-44 | A file `sub` below `input_dir` is saved at the same `sub` below `output_dir`, under its renamed name. |
| Chunker.SaveDirBelow | backend/preprocess/chunker.py:39-40 | A directory `sub` below `input_dir` gets a `save_dir` that is the same `sub` below `output_dir`. |
| Chunker.SaveNameRelative | backend/preprocess/chunker.py:43-44 | Renaming keeps a file name free of `/`, so `os.path.join` appends it to `save_dir`. |
| Chunker.FlatRunWrites | backend/preprocess/chunker.py:39-44 | In a flat tree every walk directory is `input_dir` itself. There `rel_dir` is `.`, and every chunk file is written directly in `output_dir` under its renamed name. |
| Chunker.WritesKeepWellNumbered | backend/preprocess/chunker.py:46-47 | Writing well-numbered chunk lists keeps every stored list well numbered. |
| Chunker.StoreStaysWellNumbered | backend/preprocess/chunker.py:24-47 | After `process_clean_dir`, every chunk file in the store is well numbered, given that it was before. |
| Chunker.ChunkAllSources | backend/preprocess/chunker.py:52-57 | The three cleaned trees are chunked in turn into `data/chunks` with the defaults 1000 and 200. |
| Paths.PathJoin | backend/preprocess/chunker.py:40 | Defines two-argument `os.path.join`: an absolute second part replaces the first, and otherwise the parts are joined with one `/`. |
| Paths.RelPath | backend/preprocess/chunker.py:39 | Defines `os.path.relpath`: one `..` per component of `start` beyond the common prefix, then the rest of `path`, or `.` when nothing is left. |
| Paths.KeyPathJoin | backend/preprocess/chunker.py:40 | `os.path.join(a, b)` for a relative `b` names `a`'s components followed by `b`'s. |
| Paths.RelPathBelow | backend/preprocess/chunker.py:39 | For a directory `sub` below `start`, `relpath` is `sub` written out, or `.` when `sub` is empty. |
| Paths.ApplyWritesLast | backend/preprocess/chunker.py:46-47 | After writing files in order, a path holds its last write. |
| Paths.ApplyWritesUntouched | backend/preprocess/chunker.py:46-47 | A path no write names keeps its old contents, or stays absent. |
| EmbedIndexer.FileEntries | backend/vectorstore/embed_indexer.py:27-37 | A `.json` file contributes one catalog position per chunk. Any other file contributes none. |
| EmbedIndexer.Catalog | backend/vectorstore/embed_indexer.py:25-37 | Defines the catalog of a listing, file after file. Each chunk's record has the file name, the chunk's id and the directory relative to `CHUNKS_DIR`. |
| EmbedIndexer.LoadChunksFromDir | backend/vectorstore/embed_indexer.py:21-39 | `texts` and `metadata` are the two columns of the catalog of the walk. They have the same length, and position i of both describes the same chunk. |
| EmbedIndexer.LoadDir | backend/vectorstore/embed_indexer.py:26-37 | The loop over one directory's files extends the lockstep columns by that directory's catalog. |
| EmbedIndexer.LoadFile | backend/vectorstore/embed_indexer.py:31-37 | The loop over one file's chunks extends both columns by that file's entries. |
| EmbedIndexer.LockstepSnoc | backend/vectorstore/embed_indexer.py:32-37 | Appending a text and its record together keeps the columns in lockstep. |
| EmbedIndexer.CatalogOrigin | backend/vectorstore/embed_indexer.py:25-37 | Every catalog position is chunk c of one listed `.json` file. Its text is that chunk's text. Its record has the bare file name, the chunk's own id, and the directory relative to the chunk root. |
| EmbedIndexer.CatalogAppend | backend/vectorstore/embed_indexer.py:25-37 | The catalog of two listings in sequence is the concatenation of their catalogs. |
| EmbedIndexer.FileContiguous | backend/vectorstore/embed_indexer.py:29-37 | One file's chunks occupy one contiguous run of the catalog, in stored order, between the earlier and the later files' entries. |
| EmbedIndexer.SkipsOtherFiles | backend/vectorstore/embed_indexer.py:27-28 | A file not ending in `.json` adds nothing to the catalog. |
| EmbedIndexer.SourceOf | backend/vectorstore/embed_indexer.py:36 | For a directory `sub` below the global chunk root, `source` is `sub` written out, or `.` for the root itself. |
| EmbedIndexer.Encode | backend/vectorstore/embed_indexer.py:45 | There is one embedding per text. |
| EmbedIndexer.FlatIndex.constructor | backend/vectorstore/embed_indexer.py:48 | A fresh index is empty. |
| EmbedIndexer.FlatIndex.Add | backend/vectorstore/embed_indexer.py:49 | `add` appends the vectors, in order, after the stored ones. |
| EmbedIndexer.BuildFaissIndex | backend/vectorstore/embed_indexer.py:42-56 | The written index is exactly the texts' embeddings in text order. The written catalog is exactly `metadata`, replacing any earlier artifacts. |
| EmbedIndexer.Reindex | backend/vectorstore/embed_indexer.py:59-61 | The index and the catalog have the same size. Index position i is the embedding of catalog entry i's text, and catalog position i is that entry's record. |
| Retrieval.PyIndexModulo | backend/rag/query_engine.py:67 | Python list indexing succeeds exactly for -n <= i < n, and then picks element i mod n. |
| Retrieval.PyIndex | backend/rag/query_engine.py:67 | Defines Python's `xs[i]`: a negative index counts from the end, and an index outside `-len(xs) <= i < len(xs)` raises. |
| Retrieval.ChunkPath | backend/rag/query_engine.py:62 | Defines `f"data/chunks/{meta['source']}/{meta['file']}"`. `frontend/app.py:65` builds the same path. |
| Retrieval.Resolve | backend/rag/query_engine.py:61-67 | Defines one loop iteration, shared with `frontend/app.py:64-71`: nothing when the file is missing, the chunk when `chunk_id` is a valid Python index, `IndexError` otherwise. |
| Retrieval.ResolveAll | backend/rag/query_engine.py:60-68 | Defines the whole loop: the resolved hits in search order, or the first error. |
| Retrieval.Present | backend/rag/query_engine.py:61-64 | Defines the hits whose chunk file exists, in search order. |
| Retrieval.ResolveFails | backend/rag/query_engine.py:61-67 | One lookup raises exactly when the chunk file exists and `chunk_id` is not a valid index into it. |
| Retrieval.ResolveAllFails | backend/rag/query_engine.py:60-68 | The loop raises exactly when some hit's lookup raises, so an out-of-range id is never skipped. |
| Retrieval.ResolveAllErrSticks | backend/rag/query_engine.py:60-68 | Once a hit raises, the whole loop raises, whatever follows. |
| Retrieval.ResolveAllSnoc | backend/rag/query_engine.py:60-68 | One more hit adds its chunk, adds nothing when its file is missing, or raises. |
| Retrieval.ResolveAllPresent | backend/rag/query_engine.py:63-68 | Without an error, there is one chunk per hit whose file exists, in search order. Each is that hit's lookup. |
| Retrieval.PresentInOrder | backend/rag/query_engine.py:60-64 | The hits that survive the existence check are a subsequence of the search order. |
| Retrieval.ResolveAllBound | backend/rag/query_engine.py:57-68 | There are no more chunks than hits. |
| Chat.UserMessageLayout | backend/rag/query_engine.py:93 | The user message is `CONTEXT:\n`, then the context, then `\n\nQUESTION:\n`, then the query, at fixed offsets. |
| Chat.UserMessageInjective | backend/rag/query_engine.py:93 | Given the query's length, the message determines both the context and the query. |
| Chat.UserMessageAmbiguous | backend/rag/query_engine.py:93 | Without that length it does not: a context containing the question header reads like a longer query. |
| Chat.UserMessage | backend/rag/query_engine.py:93 | Defines `f"CONTEXT:\n{context}\n\nQUESTION:\n{query}"`. `frontend/app.py:87` uses the same format. |
| Chat.Reply | backend/rag/query_engine.py:99-102 | Defines the returned text: the answer as is, or the error prefix followed by the message. `frontend/app.py:92-94` does the same with its own prefix. |
| Chat.ReplyOfFailure | backend/rag/query_engine.py:99-102 | A failed call becomes the error prefix followed by its message. An answer passes through unchanged. |
| QueryEngine.BlockLayout | backend/rag/query_engine.py:68 | A block starts with `[source] ` and continues with the chunk text. |
| QueryEngine.Block | backend/rag/query_engine.py:68 | Defines `f"[{meta['source']}] {text_snippet}"`. |
| QueryEngine.ContextOf | backend/rag/query_engine.py:70-73 | Defines the returned context: the sentinel when no block survived, else the blocks joined with `"\n\n"`. |
| QueryEngine.SentinelIffEmpty | backend/rag/query_engine.py:70-73 | The context is the sentinel exactly when no hit survived. |
| QueryEngine.GetContextText | backend/rag/query_engine.py:59-73 | The result is the resolved hits' blocks joined by blank lines, the sentinel when none survived, or the first `IndexError`. |
| QueryEngine.AtMostTopK | backend/rag/query_engine.py:52-68 | With `TOP_K` hits there are at most 5 blocks. |
| QueryEngine.RagQueryGroq | backend/rag/query_engine.py:76-102 | A lookup error escapes, since it is raised before the `try`. Otherwise the reply is the chat model's answer to the system prompt and the formatted user message, or the Groq error prefix and the failure message. |
| App.GetContext | frontend/app.py:61-72 | The result is the `(source, file, snippet)` triple of every hit whose file exists, in search order, or the first `IndexError`. |
| App.AtMostTopK | frontend/app.py:58-72 | With the default `top_k` of 5 hits, there are at most 5 triples. |
| App.ContextTextLength | frontend/app.py:110 | The context is `""` for no hits. Otherwise its length is the snippets' total length plus 2 per gap. |
| App.ContextText | frontend/app.py:110 | Defines `"\n\n".join([r[2] for r in retrieved])`: the snippets alone, with no source tags. |
| App.GenerateAnswer | frontend/app.py:75-94 | Defines `generate_answer`: the chat model's reply to the system prompt and the formatted user message, or the API error prefix and the message. |
| App.GenerateAnswerFailure | frontend/app.py:93-94 | A failed call gives `⚠️ Error while querying Groq API: ` followed by the message. |
| App.RunAnalysis | frontend/app.py:107-111 | Nothing happens unless the button was pressed and the stripped query is non-empty. Otherwise the retrieved triples come back with the answer to their untagged, blank-line-joined snippets. |
| Pipeline.KeyChunkPath | backend/rag/query_engine.py:62 | `data/chunks/{source}/{file}` names the chunk root's components, then `source`'s, then `file`'s. |
| Pipeline.KeySource | backend/vectorstore/embed_indexer.py:36 | A directory below the chunk root is the chunk root followed by its recorded `source`. |
| Pipeline.ChunkPathOfFile | backend/rag/query_engine.py:62 | The path rebuilt from a catalog record is the path of the file the record was read from. |
| Pipeline.CatalogResolves | backend/rag/query_engine.py:61-67 | Given a well-numbered store and a walk that matches it, catalog position k resolves to a hit carrying the text recorded at position k. |
| Pipeline.SearchResolves | backend/rag/query_engine.py:60-68 | Over such an index, every search resolves without error and without skipping. Each hit comes back in search order with its recorded text. |
| Pipeline.ChunkThenSearch | backend/preprocess/chunker.py:20 | Because the chunker numbers chunks by position, a catalog built over the tree the chunker leaves resolves every search. |
| Pipeline.ChunkAllThenSearch | backend/preprocess/chunker.py:52-57 | The same holds for the store the three `__main__` runs leave. The store starts well numbered and receives the chunk files of all three runs in turn. A catalog over a walk matching it then resolves every search, with each hit's recorded text. |
| Pipeline.FlatTreeTags | backend/vectorstore/embed_indexer.py:36 | In a flat chunk tree, every catalog record has `source` `.`. So the block `backend/rag/query_engine.py:68` builds from it is tagged `[.] `. |
| Pipeline.DotBlock | backend/rag/query_engine.py:68 | A hit with `source` `.` gives the block `[.] ` followed by its text. |

## Left out

- **Embedding.** `SentenceTransformer` encoding is a fixed function from text to a vector of reals. Its arithmetic and dimension are not modelled.
- **Vector search.** `IndexFlatL2` search is an input sequence of hit positions.
- QueryEngine.GetContextText: requires every hit to be a catalog position. FAISS pads with `-1` when `top_k` exceeds the index size, and `metadata[-1]` would then pick the last record. That library behaviour is not modelled.
- App.GetContext: requires every hit to be a catalog position, for the same reason.
- **Index serialisation.** `write_index` and `read_index` are modelled as whole replacement of the stored vectors.
- **The text splitter.** `RecursiveCharacterTextSplitter` is an arbitrary function of the text, the chunk size and the overlap. Nothing is claimed about piece sizes or overlap.
- **The chat call.** The Groq call is an arbitrary function from the two messages to an answer or a raised message. A `None` message content is not distinguished from text.
- **File plumbing.** `open`, `json.load`, `json.dump` and `makedirs` are not modelled. A directory is a map from normalised path to contents, and a walk or listing is given as input.
  - `EmbedIndexer.LoadChunksFromDir` takes the walk of `root_dir` as input. `root_dir` itself only names where that walk starts. Each `source` is taken relative to the module constant `ChunksDir`, the global `CHUNKS_DIR`, as in the code.
  - `..` components are not resolved.
  - Absolute and relative paths are not distinguished.
  - `os.path.exists` on a directory is not modelled.
- **Decoding.** Decoding errors ignored with `errors="ignore"` are not modelled.
- **Unexpected data shapes.** Non-directory entries under `data/sec_filings` and JSON values that are not lists are not modelled.
  - An article field is a JSON string or `null` only. A number or a boolean, which the f-string at `backend/preprocess/cleaner.py:34` would render through `str()` (`123`, `True`), is not modelled.
- **Market rendering.** pandas' `df.tail(30).to_string(index=False)` is taken as the content given with each market file.
- **UI and loading.** Streamlit rendering and the module-level one-time loading of the model, index and catalog are outside the model. So is the query engine's `__main__` with its fixed question.
- **Ingestion.** `backend/ingestion` (network fetches, HTML parsing, pandas numerics) is not part of this model. Neither is `backend/vectorstore/query_test.py`, which only prints.
- **The `print` calls.** The progress messages are not modelled.
