/** The chunking stage: `chunk_text_file` numbers the splitter's pieces, and
    `process_clean_dir` walks a cleaned-text tree and writes one
    `*_chunks.json` per `.txt` file into a mirrored directory tree. */
module Chunker {
  import opened Wrappers
  import opened Strings
  import opened Paths

  const DefaultChunkSize: nat := 1000
  const DefaultChunkOverlap: nat := 200
  const DefaultOutputDir: string := "data/chunks"

  /** One record `{"chunk_id": i, "text": doc}` of a chunk file. */
  datatype Chunk = Chunk(chunkId: int, text: string)

  /** `RecursiveCharacterTextSplitter(chunk_size, chunk_overlap).split_text(text)`;
      its splitting rule is not modelled, only that it is a function of its inputs. */
  type Splitter = (string, nat, nat) -> seq<string>

  /** The chunk ids are exactly the positions 0..n-1. */
  predicate WellNumbered(chunks: seq<Chunk>)
  {
    forall i | 0 <= i < |chunks| :: chunks[i].chunkId == i
  }

  /** The texts of a chunk list, in order. */
  function Texts(chunks: seq<Chunk>): (r: seq<string>)
    ensures |r| == |chunks|
  {
    seq(|chunks|, i requires 0 <= i < |chunks| => chunks[i].text)
  }

  /** `[{"chunk_id": i, "text": doc} for i, doc in enumerate(docs)]` */
  function Enumerate(docs: seq<string>): (chunks: seq<Chunk>)
    ensures |chunks| == |docs|
  {
    seq(|docs|, i requires 0 <= i < |docs| => Chunk(i, docs[i]))
  }

  /** `chunk_text_file` after the read: the splitter's pieces, numbered by position. */
  function ChunkTextFile(text: string, chunkSize: nat, chunkOverlap: nat, split: Splitter): seq<Chunk>
  {
    Enumerate(split(text, chunkSize, chunkOverlap))
  }

  /** The chunk ids of a chunk file are 0..n-1 in order, and its texts are the
      splitter's pieces, one chunk per piece. */
  lemma ChunkTextFileNumbering(text: string, chunkSize: nat, chunkOverlap: nat, split: Splitter)
    ensures WellNumbered(ChunkTextFile(text, chunkSize, chunkOverlap, split))
    ensures Texts(ChunkTextFile(text, chunkSize, chunkOverlap, split)) == split(text, chunkSize, chunkOverlap)
  {
    var docs := split(text, chunkSize, chunkOverlap);
    assert Texts(Enumerate(docs)) == docs;
  }

  /** Numbering loses nothing: the texts come back out, and a chunk list is well
      numbered exactly when it is the numbering of its own texts. */
  lemma EnumerateInverse(docs: seq<string>, chunks: seq<Chunk>)
    ensures Texts(Enumerate(docs)) == docs
    ensures WellNumbered(chunks) <==> chunks == Enumerate(Texts(chunks))
  {
    assert Texts(Enumerate(docs)) == docs;
    if WellNumbered(chunks) {
      assert forall i | 0 <= i < |chunks| :: chunks[i] == Chunk(i, chunks[i].text);
      assert chunks == Enumerate(Texts(chunks));
    }
    if chunks == Enumerate(Texts(chunks)) {
      assert forall i | 0 <= i < |chunks| :: chunks[i] == Enumerate(Texts(chunks))[i];
    }
  }

  // ---------------------------------------------------------------------
  // Output paths
  // ---------------------------------------------------------------------

  /** `os.path.join(output_dir, os.path.relpath(root, input_dir))` */
  function SaveDir(inputDir: string, outputDir: string, root: string): string
  {
    PathJoin(outputDir, RelPath(root, inputDir))
  }

  /** `file.replace(".txt", "_chunks.json")` */
  function SaveName(file: string): string
  {
    ReplaceAll(file, ".txt", "_chunks.json")
  }

  function SavePath(inputDir: string, outputDir: string, root: string, file: string): string
  {
    PathJoin(SaveDir(inputDir, outputDir, root), SaveName(file))
  }

  /** The arguments of one `process_clean_dir` call. */
  datatype ChunkRun = ChunkRun(inputDir: string, outputDir: string, chunkSize: nat, chunkOverlap: nat, split: Splitter)

  /** What one listed file in `root` produces: nothing unless its name ends in `.txt`. */
  function FileWrite(run: ChunkRun, root: string, f: TextFile): Option<(string, seq<Chunk>)>
  {
    if !EndsWith(f.name, ".txt") then None
    else Some((SavePath(run.inputDir, run.outputDir, root, f.name),
               ChunkTextFile(f.content, run.chunkSize, run.chunkOverlap, run.split)))
  }

  /** The chunk files written for a list of entries, in order. */
  function EntryWrites(run: ChunkRun, entries: seq<(string, TextFile)>): seq<(string, seq<Chunk>)>
  {
    if entries == [] then []
    else
      var e := entries[|entries| - 1];
      EntryWrites(run, entries[..|entries| - 1]) + (match FileWrite(run, e.0, e.1) case Some(w) => [w] case None => [])
  }

  /** The chunk files a walk writes, directory by directory, file by file. */
  function ChunkWrites(run: ChunkRun, walk: seq<Dir<TextFile>>): seq<(string, seq<Chunk>)>
  {
    EntryWrites(run, Listing(walk))
  }

  /** `process_clean_dir`: the store afterwards holds every chunk file the walk
      writes, later writes replacing earlier ones at the same path. */
  method ProcessCleanDir(walk: seq<Dir<TextFile>>, inputDir: string, outputDir: string, chunkSize: nat, chunkOverlap: nat,
                         split: Splitter, store: map<seq<string>, seq<Chunk>>)
    returns (store': map<seq<string>, seq<Chunk>>)
    ensures store' == ApplyWrites(store, ChunkWrites(ChunkRun(inputDir, outputDir, chunkSize, chunkOverlap, split), walk))
  {
    ghost var run := ChunkRun(inputDir, outputDir, chunkSize, chunkOverlap, split);
    store' := store;
    var d := 0;
    while d < |walk|
      invariant 0 <= d <= |walk|
      invariant store' == ApplyWrites(store, EntryWrites(run, Listing(walk[..d])))
    {
      store' := ProcessDirFiles(walk[d].root, walk[d].files, inputDir, outputDir, chunkSize, chunkOverlap, split,
                                store, Listing(walk[..d]), store');
      ListingSnoc(walk, d);
      d := d + 1;
    }
    assert walk[..d] == walk;
  }

  /** The inner loop of `process_clean_dir`, over the files of one walk directory:
      it extends the writes so far by that directory's writes. */
  method ProcessDirFiles(root: string, files: seq<TextFile>, inputDir: string, outputDir: string,
                         chunkSize: nat, chunkOverlap: nat, split: Splitter,
                         ghost store0: map<seq<string>, seq<Chunk>>, ghost done: seq<(string, TextFile)>,
                         store: map<seq<string>, seq<Chunk>>)
    returns (store': map<seq<string>, seq<Chunk>>)
    requires store == ApplyWrites(store0, EntryWrites(ChunkRun(inputDir, outputDir, chunkSize, chunkOverlap, split), done))
    ensures store' == ApplyWrites(store0, EntryWrites(ChunkRun(inputDir, outputDir, chunkSize, chunkOverlap, split),
                                                      done + Entries(root, files)))
  {
    ghost var run := ChunkRun(inputDir, outputDir, chunkSize, chunkOverlap, split);
    store' := store;
    EntriesAll(done, root, files);
    var j := 0;
    while j < |files|
      invariant 0 <= j <= |files|
      invariant store' == ApplyWrites(store0, EntryWrites(run, done + Entries(root, files[..j])))
    {
      EntriesSnoc(done, root, files, j);
      EntryWritesSnoc(store0, run, done + Entries(root, files[..j]), (root, files[j]));
      var file := files[j];
      if EndsWith(file.name, ".txt") {
        var chunks := ChunkTextFile(file.content, chunkSize, chunkOverlap, split);
        var saveDir := PathJoin(outputDir, RelPath(root, inputDir));
        var savePath := PathJoin(saveDir, ReplaceAll(file.name, ".txt", "_chunks.json"));
        store' := store'[Key(savePath) := chunks];
      }
      j := j + 1;
    }
    EntriesAll(done, root, files);
  }

  lemma EntryWritesSnoc(fs: map<seq<string>, seq<Chunk>>, run: ChunkRun, entries: seq<(string, TextFile)>,
                        e: (string, TextFile))
    ensures ApplyWrites(fs, EntryWrites(run, entries + [e]))
            == match FileWrite(run, e.0, e.1)
               case Some(w) => ApplyWrites(fs, EntryWrites(run, entries))[Key(w.0) := w.1]
               case None => ApplyWrites(fs, EntryWrites(run, entries))
  {
    assert (entries + [e])[..|entries|] == entries;
    var prev := EntryWrites(run, entries);
    match FileWrite(run, e.0, e.1)
    case Some(w) =>
      assert (prev + [w])[..|prev|] == prev;
    case None =>
      assert prev + [] == prev;
  }

  /** The `__main__` run: the three cleaned trees, chunked in turn into `data/chunks`. */
  method ChunkAllSources(sec: seq<Dir<TextFile>>, news: seq<Dir<TextFile>>, market: seq<Dir<TextFile>>, split: Splitter,
                         store: map<seq<string>, seq<Chunk>>)
    returns (store': map<seq<string>, seq<Chunk>>)
    ensures store' == ApplyWrites(store,
              ChunkWrites(ChunkRun("data/clean/sec", DefaultOutputDir, DefaultChunkSize, DefaultChunkOverlap, split), sec)
              + ChunkWrites(ChunkRun("data/clean/news", DefaultOutputDir, DefaultChunkSize, DefaultChunkOverlap, split), news)
              + ChunkWrites(ChunkRun("data/clean/market", DefaultOutputDir, DefaultChunkSize, DefaultChunkOverlap, split), market))
  {
    var ws1 := ChunkWrites(ChunkRun("data/clean/sec", DefaultOutputDir, DefaultChunkSize, DefaultChunkOverlap, split), sec);
    var ws2 := ChunkWrites(ChunkRun("data/clean/news", DefaultOutputDir, DefaultChunkSize, DefaultChunkOverlap, split), news);
    var ws3 := ChunkWrites(ChunkRun("data/clean/market", DefaultOutputDir, DefaultChunkSize, DefaultChunkOverlap, split), market);
    store' := ProcessCleanDir(sec, "data/clean/sec", DefaultOutputDir, DefaultChunkSize, DefaultChunkOverlap, split, store);
    store' := ProcessCleanDir(news, "data/clean/news", DefaultOutputDir, DefaultChunkSize, DefaultChunkOverlap, split, store');
    store' := ProcessCleanDir(market, "data/clean/market", DefaultOutputDir, DefaultChunkSize, DefaultChunkOverlap, split, store');
    ApplyWritesAppend(store, ws1, ws2);
    ApplyWritesAppend(store, ws1 + ws2, ws3);
  }

  // ---------------------------------------------------------------------
  // Properties of the walk
  // ---------------------------------------------------------------------

  /** Every chunk file written for a list of entries comes from one of them. */
  lemma {:induction false} EntryWritesOrigin(run: ChunkRun, entries: seq<(string, TextFile)>, k: nat) returns (i: nat)
    requires k < |EntryWrites(run, entries)|
    ensures i < |entries| && FileWrite(run, entries[i].0, entries[i].1) == Some(EntryWrites(run, entries)[k])
  {
    var n := |entries| - 1;
    if k < |EntryWrites(run, entries[..n])| {
      i := EntryWritesOrigin(run, entries[..n], k);
      assert entries[..n][i] == entries[i];
    } else {
      i := n;
    }
  }

  /** Every chunk file written comes from a listed `.txt` file: it sits at that file's
      mirrored save path and holds the numbered pieces of that file's text. */
  lemma ChunkWritesOrigin(run: ChunkRun, walk: seq<Dir<TextFile>>, k: nat) returns (d: nat, j: nat)
    requires k < |ChunkWrites(run, walk)|
    ensures d < |walk| && j < |walk[d].files|
    ensures EndsWith(walk[d].files[j].name, ".txt")
    ensures ChunkWrites(run, walk)[k]
            == (SavePath(run.inputDir, run.outputDir, walk[d].root, walk[d].files[j].name),
                ChunkTextFile(walk[d].files[j].content, run.chunkSize, run.chunkOverlap, run.split))
  {
    var i := EntryWritesOrigin(run, Listing(walk), k);
    d, j := ListingOrigin(walk, i);
  }

  /** A file not ending in `.txt` never yields a chunk file. */
  lemma SkipsOtherFiles(run: ChunkRun, entries: seq<(string, TextFile)>, root: string, f: TextFile)
    requires !EndsWith(f.name, ".txt")
    ensures EntryWrites(run, entries + [(root, f)]) == EntryWrites(run, entries)
  {
    assert (entries + [(root, f)])[..|entries|] == entries;
  }

  /** A `.txt` name becomes a `_chunks.json` name; a stem that does not itself contain
      `.txt` is kept as it is. */
  lemma SaveNameOf(stem: string)
    ensures EndsWith(SaveName(stem + ".txt"), "_chunks.json")
    ensures !Contains(stem, ".txt") ==> SaveName(stem + ".txt") == stem + "_chunks.json"
  {
    UnborderedExtensions();
    ReplaceAllSuffix(stem, ".txt", "_chunks.json");
    if !Contains(stem, ".txt") {
      ReplaceAllAbsent(stem, ".txt", "_chunks.json");
    }
  }

  /** The relative directory of a walk directory never starts at the root. */
  lemma RelPathRelative(root: string, inputDir: string, sub: seq<string>)
    requires Key(root) == Key(inputDir) + sub && AllNames(sub)
    ensures !StartsWith(RelPath(root, inputDir), "/")
  {
    RelPathBelow(root, inputDir, sub);
    if sub != [] {
      JoinHead("/", sub);
      assert IsName(sub[0]);
    }
  }

  /** Mirroring: a file found `sub` below `input_dir` is saved `sub` below `output_dir`,
      under its renamed file name. */
  lemma MirroredSavePath(inputDir: string, outputDir: string, root: string, file: string, sub: seq<string>)
    requires Key(root) == Key(inputDir) + sub && AllNames(sub)
    requires IsName(file)
    ensures Key(SavePath(inputDir, outputDir, root, file)) == Key(outputDir) + sub + Key(SaveName(file))
  {
    SaveDirBelow(inputDir, outputDir, root, sub);
    SaveNameRelative(file);
    KeyPathJoin(SaveDir(inputDir, outputDir, root), SaveName(file));
  }

  /** Renaming keeps a file name free of `/`, so it joins as a relative path. */
  lemma SaveNameRelative(file: string)
    requires '/' !in file
    ensures '/' !in SaveName(file) && !StartsWith(SaveName(file), "/")
  {
    ReplaceAllFree('/', file, ".txt", "_chunks.json");
    var name := SaveName(file);
    assert name == [] || name[0] in name;
  }

  /** The directory part of the mirrored save path. */
  lemma SaveDirBelow(inputDir: string, outputDir: string, root: string, sub: seq<string>)
    requires Key(root) == Key(inputDir) + sub && AllNames(sub)
    ensures Key(SaveDir(inputDir, outputDir, root)) == Key(outputDir) + sub
  {
    RelPathRelative(root, inputDir, sub);
    RelPathBelow(root, inputDir, sub);
    KeyPathJoin(outputDir, RelPath(root, inputDir));
  }

  /** A run over a flat tree, whose every listed directory is `input_dir` itself, gets
      `rel_dir == "."` throughout and so writes every chunk file directly into `output_dir`. */
  lemma FlatRunWrites(run: ChunkRun, walk: seq<Dir<TextFile>>, k: nat) returns (d: nat, j: nat)
    requires forall d | 0 <= d < |walk| :: Key(walk[d].root) == Key(run.inputDir)
    requires forall d, j | 0 <= d < |walk| && 0 <= j < |walk[d].files| :: IsName(walk[d].files[j].name)
    requires k < |ChunkWrites(run, walk)|
    ensures d < |walk| && j < |walk[d].files|
    ensures RelPath(walk[d].root, run.inputDir) == "."
    ensures Key(ChunkWrites(run, walk)[k].0) == Key(run.outputDir) + Key(SaveName(walk[d].files[j].name))
  {
    d, j := ChunkWritesOrigin(run, walk, k);
    var root := walk[d].root;
    assert Key(root) == Key(run.inputDir) + [];
    RelPathBelow(root, run.inputDir, []);
    MirroredSavePath(run.inputDir, run.outputDir, root, walk[d].files[j].name, []);
  }

  /** Overwriting with well-numbered lists keeps every stored list well numbered. */
  lemma {:induction false} WritesKeepWellNumbered(store: map<seq<string>, seq<Chunk>>, ws: seq<(string, seq<Chunk>)>)
    requires forall p | p in store :: WellNumbered(store[p])
    requires forall i | 0 <= i < |ws| :: WellNumbered(ws[i].1)
    ensures forall p | p in ApplyWrites(store, ws) :: WellNumbered(ApplyWrites(store, ws)[p])
  {
    if ws != [] {
      WritesKeepWellNumbered(store, ws[..|ws| - 1]);
    }
  }

  /** After `process_clean_dir` every chunk file in the store is well numbered,
      if it was before. */
  lemma StoreStaysWellNumbered(run: ChunkRun, walk: seq<Dir<TextFile>>, store: map<seq<string>, seq<Chunk>>)
    requires forall p | p in store :: WellNumbered(store[p])
    ensures var store' := ApplyWrites(store, ChunkWrites(run, walk));
            forall p | p in store' :: WellNumbered(store'[p])
  {
    var ws := ChunkWrites(run, walk);
    forall i | 0 <= i < |ws|
      ensures WellNumbered(ws[i].1)
    {
      var d, j := ChunkWritesOrigin(run, walk, i);
      ChunkTextFileNumbering(walk[d].files[j].content, run.chunkSize, run.chunkOverlap, run.split);
    }
    WritesKeepWellNumbered(store, ws);
  }
}
