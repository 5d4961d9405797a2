/** The indexing stage: `load_chunks_from_dir` reads every chunk file into two
    lists kept in lockstep, the chunk texts and their metadata records, and
    `build_faiss_index` embeds the texts into a fresh flat index and writes
    it next to the catalog. */
module EmbedIndexer {
  import opened Strings
  import opened Paths
  import opened Chunker
  import opened Retrieval

  const ChunksDir: string := "data/chunks"
  const IndexDir: string := "data/vector_index"

  /** A file of the chunk tree, with what `json.load` returns when it is read. */
  datatype ChunkFile = ChunkFile(name: string, data: seq<Chunk>)

  /** One catalog position: a chunk's text and its metadata record. */
  datatype Entry = Entry(text: string, meta: MetaRecord)

  /** The catalog positions one listed file contributes: none unless it is a `.json`
      file, else one per chunk in stored order, each recording `source`. */
  function FileEntries(source: string, f: ChunkFile): (es: seq<Entry>)
    ensures |es| == if EndsWith(f.name, ".json") then |f.data| else 0
  {
    if !EndsWith(f.name, ".json") then []
    else seq(|f.data|, c requires 0 <= c < |f.data| => Entry(f.data[c].text, MetaRecord(f.name, f.data[c].chunkId, source)))
  }

  /** The catalog of a listing, file after file. A file's `source` is its directory
      relative to `chunksDir`, the global `CHUNKS_DIR`, whatever directory the walk
      started from. */
  function Catalog(chunksDir: string, entries: seq<(string, ChunkFile)>): seq<Entry>
  {
    if entries == [] then []
    else
      var e := entries[|entries| - 1];
      Catalog(chunksDir, entries[..|entries| - 1]) + FileEntries(RelPath(e.0, chunksDir), e.1)
  }

  /** `texts` and `metadata` are the two columns of the catalog `es`. */
  predicate Lockstep(texts: seq<string>, metadata: seq<MetaRecord>, es: seq<Entry>)
  {
    && |texts| == |es| && |metadata| == |es|
    && forall i | 0 <= i < |es| :: texts[i] == es[i].text && metadata[i] == es[i].meta
  }

  lemma LockstepSnoc(texts: seq<string>, metadata: seq<MetaRecord>, es: seq<Entry>, e: Entry)
    requires Lockstep(texts, metadata, es)
    ensures Lockstep(texts + [e.text], metadata + [e.meta], es + [e])
  {
  }

  lemma CatalogSnoc(chunksDir: string, entries: seq<(string, ChunkFile)>, e: (string, ChunkFile))
    ensures Catalog(chunksDir, entries + [e]) == Catalog(chunksDir, entries) + FileEntries(RelPath(e.0, chunksDir), e.1)
  {
    assert (entries + [e])[..|entries|] == entries;
  }

  /** `load_chunks_from_dir(root_dir)`, given `walk`, the walk of `root_dir`: the texts
      and the metadata records of every chunk of every `.json` file, in walk order, in
      lockstep. Each `source` is relative to the global `CHUNKS_DIR`, not to `root_dir`. */
  method LoadChunksFromDir(rootDir: string, walk: seq<Dir<ChunkFile>>)
    returns (texts: seq<string>, metadata: seq<MetaRecord>)
    ensures Lockstep(texts, metadata, Catalog(ChunksDir, Listing(walk)))
  {
    texts, metadata := [], [];
    var d := 0;
    while d < |walk|
      invariant 0 <= d <= |walk|
      invariant Lockstep(texts, metadata, Catalog(ChunksDir, Listing(walk[..d])))
    {
      texts, metadata := LoadDir(texts, metadata, ChunksDir, Listing(walk[..d]), walk[d].root, walk[d].files);
      ListingSnoc(walk, d);
      d := d + 1;
    }
    assert walk[..d] == walk;
  }

  /** The loop over the files of one walk directory. */
  method LoadDir(texts: seq<string>, metadata: seq<MetaRecord>, chunksDir: string,
                 ghost done: seq<(string, ChunkFile)>, root: string, files: seq<ChunkFile>)
    returns (texts': seq<string>, metadata': seq<MetaRecord>)
    requires Lockstep(texts, metadata, Catalog(chunksDir, done))
    ensures Lockstep(texts', metadata', Catalog(chunksDir, done + Entries(root, files)))
  {
    texts', metadata' := texts, metadata;
    EntriesAll(done, root, files);
    var j := 0;
    while j < |files|
      invariant 0 <= j <= |files|
      invariant Lockstep(texts', metadata', Catalog(chunksDir, done + Entries(root, files[..j])))
    {
      ghost var before := Catalog(chunksDir, done + Entries(root, files[..j]));
      CatalogStep(chunksDir, done, root, files, j);
      var file := files[j];
      if EndsWith(file.name, ".json") {
        var source := RelPath(root, chunksDir);
        texts', metadata' := LoadFile(texts', metadata', before, source, file);
      }
      j := j + 1;
    }
    EntriesAll(done, root, files);
  }

  /** One more file of a walk directory adds its own catalog positions, and none
      unless it is a `.json` file. */
  lemma CatalogStep(chunksDir: string, done: seq<(string, ChunkFile)>, root: string, files: seq<ChunkFile>, j: nat)
    requires j < |files|
    ensures Catalog(chunksDir, done + Entries(root, files[..j + 1]))
            == Catalog(chunksDir, done + Entries(root, files[..j])) + FileEntries(RelPath(root, chunksDir), files[j])
    ensures !EndsWith(files[j].name, ".json")
            ==> Catalog(chunksDir, done + Entries(root, files[..j + 1])) == Catalog(chunksDir, done + Entries(root, files[..j]))
  {
    EntriesSnoc(done, root, files, j);
    CatalogSnoc(chunksDir, done + Entries(root, files[..j]), (root, files[j]));
  }

  /** The loop over the chunks of one `.json` file. */
  method LoadFile(texts: seq<string>, metadata: seq<MetaRecord>, ghost before: seq<Entry>, source: string, file: ChunkFile)
    returns (texts': seq<string>, metadata': seq<MetaRecord>)
    requires EndsWith(file.name, ".json")
    requires Lockstep(texts, metadata, before)
    ensures Lockstep(texts', metadata', before + FileEntries(source, file))
  {
    texts', metadata' := texts, metadata;
    ghost var here := FileEntries(source, file);
    var data := file.data;
    var c := 0;
    while c < |data|
      invariant 0 <= c <= |data|
      invariant Lockstep(texts', metadata', before + here[..c])
    {
      LockstepSnoc(texts', metadata', before + here[..c], here[c]);
      assert before + here[..c] + [here[c]] == before + here[..c + 1];
      texts' := texts' + [data[c].text];
      metadata' := metadata' + [MetaRecord(file.name, data[c].chunkId, source)];
      c := c + 1;
    }
    assert here[..c] == here;
  }

  // ---------------------------------------------------------------------
  // Properties of the catalog
  // ---------------------------------------------------------------------

  /** Every catalog position is one chunk of one listed `.json` file: its text is
      that chunk's text, and its record names the file, copies the chunk's id and
      gives the file's directory relative to `chunksDir`. */
  lemma {:induction false} CatalogOrigin(chunksDir: string, entries: seq<(string, ChunkFile)>, k: nat)
    returns (i: nat, c: nat)
    requires k < |Catalog(chunksDir, entries)|
    ensures i < |entries| && EndsWith(entries[i].1.name, ".json") && c < |entries[i].1.data|
    ensures var (root, f) := entries[i];
            Catalog(chunksDir, entries)[k]
            == Entry(f.data[c].text, MetaRecord(f.name, f.data[c].chunkId, RelPath(root, chunksDir)))
  {
    var n := |entries| - 1;
    var before := Catalog(chunksDir, entries[..n]);
    if k < |before| {
      i, c := CatalogOrigin(chunksDir, entries[..n], k);
      assert entries[..n][i] == entries[i];
    } else {
      i, c := n, k - |before|;
    }
  }

  /** The catalog of two listings one after the other is the two catalogs concatenated. */
  lemma {:induction false} CatalogAppend(chunksDir: string, a: seq<(string, ChunkFile)>, b: seq<(string, ChunkFile)>)
    ensures Catalog(chunksDir, a + b) == Catalog(chunksDir, a) + Catalog(chunksDir, b)
    decreases |b|
  {
    if b == [] {
      assert a + b == a;
    } else {
      CatalogAppend(chunksDir, a, b[..|b| - 1]);
      CatalogAppendStep(chunksDir, a, b);
    }
  }

  lemma CatalogAppendStep(chunksDir: string, a: seq<(string, ChunkFile)>, b: seq<(string, ChunkFile)>)
    requires b != []
    requires Catalog(chunksDir, a + b[..|b| - 1]) == Catalog(chunksDir, a) + Catalog(chunksDir, b[..|b| - 1])
    ensures Catalog(chunksDir, a + b) == Catalog(chunksDir, a) + Catalog(chunksDir, b)
  {
    var n := |b| - 1;
    AppendLast(a, b);
    CatalogSnoc(chunksDir, a + b[..n], b[n]);
    CatalogSnoc(chunksDir, b[..n], b[n]);
    AppendRegroup(Catalog(chunksDir, a), Catalog(chunksDir, b[..n]), FileEntries(RelPath(b[n].0, chunksDir), b[n].1));
  }

  /** The chunks of one file occupy one contiguous run of the catalog, in stored order,
      after everything listed before it and before everything listed after it. */
  lemma FileContiguous(chunksDir: string, entries: seq<(string, ChunkFile)>, i: nat)
    requires i < |entries|
    ensures Catalog(chunksDir, entries)
            == Catalog(chunksDir, entries[..i])
               + FileEntries(RelPath(entries[i].0, chunksDir), entries[i].1)
               + Catalog(chunksDir, entries[i + 1..])
  {
    assert entries == entries[..i] + [entries[i]] + entries[i + 1..];
    CatalogAppend(chunksDir, entries[..i] + [entries[i]], entries[i + 1..]);
    CatalogSnoc(chunksDir, entries[..i], entries[i]);
  }

  /** A file not ending in `.json` contributes nothing. */
  lemma SkipsOtherFiles(chunksDir: string, entries: seq<(string, ChunkFile)>, root: string, f: ChunkFile)
    requires !EndsWith(f.name, ".json")
    ensures Catalog(chunksDir, entries + [(root, f)]) == Catalog(chunksDir, entries)
  {
    CatalogSnoc(chunksDir, entries, (root, f));
  }

  /** For a directory `sub` below `chunksDir`, `source` is `sub` written out, or `.`
      for `chunksDir` itself. */
  lemma SourceOf(root: string, chunksDir: string, sub: seq<string>)
    requires Key(root) == Key(chunksDir) + sub && AllNames(sub)
    ensures RelPath(root, chunksDir) == if sub == [] then "." else Render(sub)
    ensures Key(RelPath(root, chunksDir)) == sub
  {
    RelPathBelow(root, chunksDir, sub);
  }

  // ---------------------------------------------------------------------
  // The index
  // ---------------------------------------------------------------------

  /** An embedding vector; its arithmetic is not modelled. */
  type Vector = seq<real>

  /** `embedder.encode` on one text: a fixed function, opaque here. */
  type Embedder = string -> Vector

  /** `embedder.encode(texts)`: one vector per text, in order. */
  function Encode(embed: Embedder, texts: seq<string>): (vs: seq<Vector>)
    ensures |vs| == |texts|
  {
    seq(|texts|, i requires 0 <= i < |texts| => embed(texts[i]))
  }

  /** `faiss.IndexFlatL2`: the stored vectors, position by position. */
  class FlatIndex {
    var vectors: seq<Vector>

    constructor ()
      ensures vectors == []
    {
      vectors := [];
    }

    /** `index.add(xs)`: the new vectors take the next positions, in order. */
    method Add(xs: seq<Vector>)
      modifies this
      ensures vectors == old(vectors) + xs
    {
      vectors := vectors + xs;
    }
  }

  /** The two artifacts under `data/vector_index`: the serialised index and `metadata.json`. */
  class IndexFiles {
    var index: seq<Vector>
    var catalog: seq<MetaRecord>

    constructor (index: seq<Vector>, catalog: seq<MetaRecord>)
      ensures this.index == index && this.catalog == catalog
    {
      this.index := index;
      this.catalog := catalog;
    }
  }

  /** `build_faiss_index`: a fresh index receives the texts' embeddings in order, and
      both artifacts are replaced whole, so index position i is `texts[i]` and
      catalog position i is `metadata[i]`. */
  method BuildFaissIndex(texts: seq<string>, metadata: seq<MetaRecord>, embed: Embedder, files: IndexFiles)
    modifies files
    ensures files.index == Encode(embed, texts)
    ensures files.catalog == metadata
  {
    var embeddings := Encode(embed, texts);
    var index := new FlatIndex();
    index.Add(embeddings);
    files.index := index.vectors;
    files.catalog := metadata;
  }

  /** The `__main__` run: load the chunk tree, then build. Index and catalog have the
      same size, and position i of both describes the same chunk. */
  method Reindex(walk: seq<Dir<ChunkFile>>, embed: Embedder, files: IndexFiles)
    modifies files
    ensures var es := Catalog(ChunksDir, Listing(walk));
            && |files.index| == |es| && |files.catalog| == |es|
            && forall i | 0 <= i < |es| :: files.index[i] == embed(es[i].text) && files.catalog[i] == es[i].meta
  {
    var texts, metadata := LoadChunksFromDir(ChunksDir, walk);
    BuildFaissIndex(texts, metadata, embed, files);
  }
}
