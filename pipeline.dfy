/** The stages put together: the catalog the indexer builds from the chunk tree
    resolves, position by position, back to the chunks it was built from, as long
    as the chunk files are numbered the way the chunker writes them. */
module Pipeline {
  import opened Wrappers
  import opened Strings
  import opened Paths
  import opened Chunker
  import opened Retrieval
  import opened EmbedIndexer
  import QueryEngine

  /** A directory the walk of `data/chunks` reports: `data/chunks` itself or a
      directory below it, reached through plain names. */
  predicate BelowChunks(root: string)
  {
    var k, base := Key(root), Key(ChunksDir);
    |base| <= |k| && k[..|base|] == base && AllNames(k[|base|..])
  }

  /** The walk agrees with the chunk files: every listed file lies in a directory
      below `data/chunks`, has a plain name, and holds what the store holds at its path. */
  predicate Reflects(walk: seq<Dir<ChunkFile>>, store: ChunkStore)
  {
    forall d, j | 0 <= d < |walk| && 0 <= j < |walk[d].files| ::
      var f := walk[d].files[j];
      && BelowChunks(walk[d].root)
      && IsName(f.name)
      && Key(PathJoin(walk[d].root, f.name)) in store
      && store[Key(PathJoin(walk[d].root, f.name))] == f.data
  }

  /** Every chunk file lists its chunks under their own positions, as the chunker writes them. */
  predicate StoreWellNumbered(store: ChunkStore)
  {
    forall p | p in store :: WellNumbered(store[p])
  }

  /** The path `get_context_text` builds from a record is the chunk tree's root, the
      record's `source` and its `file`, one after the other. */
  lemma KeyChunkPath(meta: MetaRecord)
    ensures Key(ChunkPath(meta)) == Key(ChunksDir) + Key(meta.source) + Key(meta.file)
  {
    var rest := meta.source + "/" + meta.file;
    assert ChunkPath(meta) == ChunksDir + "/" + rest;
    SplitAppend(ChunksDir, rest);
    SplitAppend(meta.source, meta.file);
    NormAppend(Split(ChunksDir), Split(meta.source) + Split(meta.file));
    NormAppend(Split(meta.source), Split(meta.file));
  }

  /** The `source` recorded for a directory below `data/chunks` names that directory's
      place below it. */
  lemma KeySource(root: string)
    requires BelowChunks(root)
    ensures Key(root) == Key(ChunksDir) + Key(RelPath(root, ChunksDir))
  {
    var base := Key(ChunksDir);
    var sub := Key(root)[|base|..];
    assert Key(root) == base + sub;
    SourceOf(root, ChunksDir, sub);
  }

  /** A plain name is a one-component path. */
  lemma KeyName(name: string)
    requires IsName(name)
    ensures Key(name) == [name]
  {
    SplitSlashFree(name);
    NormNames([name]);
  }

  /** The path a catalog record names is the path of the file it was read from. */
  lemma ChunkPathOfFile(root: string, meta: MetaRecord)
    requires Key(root) == Key(ChunksDir) + Key(meta.source) && IsName(meta.file)
    ensures Key(ChunkPath(meta)) == Key(PathJoin(root, meta.file))
  {
    KeyChunkPath(meta);
    KeyName(meta.file);
    KeyPathJoin(root, meta.file);
  }

  /** Catalog position k, read back through the chunk store, yields the text the indexer
      recorded at position k: no lookup of an indexed chunk is skipped or raises. */
  lemma CatalogResolves(walk: seq<Dir<ChunkFile>>, store: ChunkStore,
                        texts: seq<string>, metadata: seq<MetaRecord>, k: nat)
    requires Reflects(walk, store) && StoreWellNumbered(store)
    requires Lockstep(texts, metadata, Catalog(ChunksDir, Listing(walk)))
    requires k < |metadata|
    ensures Resolve(metadata, store, k) == Ok(Some(Hit(metadata[k].source, metadata[k].file, texts[k])))
  {
    var listing := Listing(walk);
    var i, c := CatalogOrigin(ChunksDir, listing, k);
    var d, j := ListingOrigin(walk, i);
    var root, f := walk[d].root, walk[d].files[j];
    assert metadata[k] == MetaRecord(f.name, f.data[c].chunkId, RelPath(root, ChunksDir));
    KeySource(root);
    ChunkPathOfFile(root, metadata[k]);
    var path := Key(PathJoin(root, f.name));
    assert store[path] == f.data;
    assert f.data[c].chunkId == c;
  }

  /** The hits resolved one by one: each hit's source, file and recorded text. */
  function Expected(texts: seq<string>, metadata: seq<MetaRecord>, hits: seq<int>): (hs: seq<Hit>)
    requires |texts| == |metadata| && ValidHits(hits, metadata)
    ensures |hs| == |hits|
  {
    seq(|hits|, i requires 0 <= i < |hits| => Hit(metadata[hits[i]].source, metadata[hits[i]].file, texts[hits[i]]))
  }

  lemma ExpectedSnoc(texts: seq<string>, metadata: seq<MetaRecord>, hits: seq<int>)
    requires |texts| == |metadata| && ValidHits(hits, metadata) && hits != []
    ensures ValidHits(hits[..|hits| - 1], metadata)
    ensures Expected(texts, metadata, hits)
            == Expected(texts, metadata, hits[..|hits| - 1])
               + [Hit(metadata[hits[|hits| - 1]].source, metadata[hits[|hits| - 1]].file, texts[hits[|hits| - 1]])]
  {
  }

  /** A search over an index built from a well-numbered chunk tree never raises and never
      skips: every hit comes back, in search order, with the text recorded for it. */
  lemma {:induction false} SearchResolves(walk: seq<Dir<ChunkFile>>, store: ChunkStore,
                                          texts: seq<string>, metadata: seq<MetaRecord>, hits: seq<int>)
    requires Reflects(walk, store) && StoreWellNumbered(store)
    requires Lockstep(texts, metadata, Catalog(ChunksDir, Listing(walk)))
    requires ValidHits(hits, metadata)
    ensures ResolveAll(metadata, store, hits) == Ok(Expected(texts, metadata, hits))
  {
    if hits != [] {
      var n := |hits| - 1;
      assert ValidHits(hits[..n], metadata);
      SearchResolves(walk, store, texts, metadata, hits[..n]);
      CatalogResolves(walk, store, texts, metadata, hits[n]);
      ExpectedSnoc(texts, metadata, hits);
    }
  }

  /** The chunker's output keeps the store well numbered, so a catalog built over the
      chunk tree it leaves behind resolves every search. */
  lemma ChunkThenSearch(run: ChunkRun, textWalk: seq<Dir<TextFile>>, before: ChunkStore, store: ChunkStore,
                        walk: seq<Dir<ChunkFile>>, texts: seq<string>, metadata: seq<MetaRecord>, hits: seq<int>)
    requires StoreWellNumbered(before) && store == ApplyWrites(before, ChunkWrites(run, textWalk))
    requires Reflects(walk, store)
    requires Lockstep(texts, metadata, Catalog(ChunksDir, Listing(walk)))
    requires ValidHits(hits, metadata)
    ensures ResolveAll(metadata, store, hits) == Ok(Expected(texts, metadata, hits))
  {
    StoreStaysWellNumbered(run, textWalk, before);
    SearchResolves(walk, store, texts, metadata, hits);
  }

  /** The `__main__` run of the chunker, three `process_clean_dir` calls one after the
      other, keeps the store well numbered, so a catalog built over the chunk tree it
      leaves behind resolves every search. */
  lemma ChunkAllThenSearch(r1: ChunkRun, w1: seq<Dir<TextFile>>, r2: ChunkRun, w2: seq<Dir<TextFile>>,
                           r3: ChunkRun, w3: seq<Dir<TextFile>>, before: ChunkStore, store: ChunkStore,
                           walk: seq<Dir<ChunkFile>>, texts: seq<string>, metadata: seq<MetaRecord>, hits: seq<int>)
    requires StoreWellNumbered(before)
    requires store == ApplyWrites(before, ChunkWrites(r1, w1) + ChunkWrites(r2, w2) + ChunkWrites(r3, w3))
    requires Reflects(walk, store)
    requires Lockstep(texts, metadata, Catalog(ChunksDir, Listing(walk)))
    requires ValidHits(hits, metadata)
    ensures ResolveAll(metadata, store, hits) == Ok(Expected(texts, metadata, hits))
  {
    var ws1, ws2, ws3 := ChunkWrites(r1, w1), ChunkWrites(r2, w2), ChunkWrites(r3, w3);
    ApplyWritesAppend(before, ws1, ws2);
    ApplyWritesAppend(before, ws1 + ws2, ws3);
    var s1 := ApplyWrites(before, ws1);
    var s2 := ApplyWrites(s1, ws2);
    StoreStaysWellNumbered(r1, w1, before);
    StoreStaysWellNumbered(r2, w2, s1);
    StoreStaysWellNumbered(r3, w3, s2);
    SearchResolves(walk, store, texts, metadata, hits);
  }

  /** A flat chunk tree, every chunk file directly in `data/chunks` as the chunker leaves
      it for flat cleaned trees, gives every catalog record the `source` `.`, so every
      block `get_context_text` builds is tagged `[.]`: never `[sec]`, `[news]` or
      `[market]`, the tags the system prompt asks the model to cite. */
  lemma FlatTreeTags(walk: seq<Dir<ChunkFile>>, k: nat)
    requires forall d | 0 <= d < |walk| :: Key(walk[d].root) == Key(ChunksDir)
    requires k < |Catalog(ChunksDir, Listing(walk))|
    ensures var e := Catalog(ChunksDir, Listing(walk))[k];
            && e.meta.source == "."
            && QueryEngine.Block(Hit(e.meta.source, e.meta.file, e.text)) == "[.] " + e.text
  {
    var listing := Listing(walk);
    var i, c := CatalogOrigin(ChunksDir, listing, k);
    var d, j := ListingOrigin(walk, i);
    var root := walk[d].root;
    assert listing[i].0 == root;
    assert Key(root) == Key(ChunksDir) + [];
    RelPathBelow(root, ChunksDir, []);
    var e := Catalog(ChunksDir, listing)[k];
    DotBlock(Hit(e.meta.source, e.meta.file, e.text));
  }

  /** A hit from the chunk root itself is tagged `[.]`. */
  lemma DotBlock(h: Hit)
    requires h.source == "."
    ensures QueryEngine.Block(h) == "[.] " + h.text
  {
    assert "[" + h.source + "] " == "[.] ";
  }

}
