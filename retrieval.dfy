/** Resolving search hits against the catalog and the chunk files: the part
    `get_context_text` (query engine) and `get_context` (web app) share.
    A hit is a catalog position; its record names a chunk file under
    `data/chunks`, and the record's `chunk_id` indexes that file's list. */
module Retrieval {
  import opened Wrappers
  import opened Strings
  import opened Paths
  import opened Chunker

  /** One entry `{"file", "chunk_id", "source"}` of `metadata.json`. */
  datatype MetaRecord = MetaRecord(file: string, chunkId: int, source: string)

  /** A retrieved chunk: the source directory, the chunk file and the chunk's text. */
  datatype Hit = Hit(source: string, file: string, text: string)

  /** The exception a lookup raises: `chunk_data[chunk_id]` out of range. */
  datatype Fault = IndexError

  /** Chunk files by path, each holding what `json.load` returns for it. */
  type ChunkStore = map<seq<string>, seq<Chunk>>

  /** `f"data/chunks/{meta['source']}/{meta['file']}"` */
  function ChunkPath(meta: MetaRecord): string
  {
    "data/chunks/" + meta.source + "/" + meta.file
  }

  /** Python's `xs[i]`: a negative index counts from the end, and anything outside
      `-len(xs) <= i < len(xs)` raises. */
  function PyIndex<T>(xs: seq<T>, i: int): Option<T>
  {
    if 0 <= i < |xs| then Some(xs[i])
    else if -|xs| <= i < 0 then Some(xs[|xs| + i])
    else None
  }

  /** Python indexing is indexing modulo the length, within one length either side of 0. */
  lemma PyIndexModulo<T>(xs: seq<T>, i: int)
    ensures PyIndex(xs, i).Some? <==> -|xs| <= i < |xs|
    ensures PyIndex(xs, i).Some? ==> PyIndex(xs, i) == Some(xs[i % |xs|])
  {
    if -|xs| <= i < 0 {
      assert i % |xs| == |xs| + i;
    }
  }

  /** All hits are catalog positions, as an index search over the catalog returns them. */
  predicate ValidHits(hits: seq<int>, metadata: seq<MetaRecord>)
  {
    forall i | 0 <= i < |hits| :: 0 <= hits[i] < |metadata|
  }

  /** One loop iteration: nothing when the chunk file is missing, the chunk when its
      `chunk_id` is a valid Python index, and `IndexError` otherwise. */
  function Resolve(metadata: seq<MetaRecord>, store: ChunkStore, idx: int): Result<Option<Hit>, Fault>
    requires 0 <= idx < |metadata|
  {
    var meta := metadata[idx];
    var path := Key(ChunkPath(meta));
    if path !in store then Ok(None)
    else match PyIndex(store[path], meta.chunkId)
      case None => Err(IndexError)
      case Some(c) => Ok(Some(Hit(meta.source, meta.file, c.text)))
  }

  /** The whole loop: the hits that resolve, in search order, or the first error. */
  function ResolveAll(metadata: seq<MetaRecord>, store: ChunkStore, hits: seq<int>): Result<seq<Hit>, Fault>
    requires ValidHits(hits, metadata)
  {
    if hits == [] then Ok([])
    else
      var n := |hits| - 1;
      match ResolveAll(metadata, store, hits[..n])
      case Err(e) => Err(e)
      case Ok(hs) =>
        match Resolve(metadata, store, hits[n])
        case Err(e) => Err(e)
        case Ok(None) => Ok(hs)
        case Ok(Some(h)) => Ok(hs + [h])
  }

  /** The hits whose chunk file exists, in search order. */
  function Present(metadata: seq<MetaRecord>, store: ChunkStore, hits: seq<int>): seq<int>
    requires ValidHits(hits, metadata)
  {
    if hits == [] then []
    else
      var n := |hits| - 1;
      Present(metadata, store, hits[..n])
      + (if Key(ChunkPath(metadata[hits[n]])) in store then [hits[n]] else [])
  }

  /** `ResolveAll` on one more hit. */
  lemma ResolveAllSnoc(metadata: seq<MetaRecord>, store: ChunkStore, hits: seq<int>, i: nat)
    requires ValidHits(hits, metadata) && i < |hits|
    ensures ValidHits(hits[..i], metadata) && ValidHits(hits[..i + 1], metadata)
    ensures ResolveAll(metadata, store, hits[..i + 1])
            == match ResolveAll(metadata, store, hits[..i])
               case Err(e) => Err(e)
               case Ok(hs) =>
                 match Resolve(metadata, store, hits[i])
                 case Err(e) => Err(e)
                 case Ok(None) => Ok(hs)
                 case Ok(Some(h)) => Ok(hs + [h])
  {
    assert hits[..i + 1][..i] == hits[..i];
  }

  /** Once a hit raises, the loop has raised: later hits do not matter. */
  lemma {:induction false} ResolveAllErrSticks(metadata: seq<MetaRecord>, store: ChunkStore, hits: seq<int>, i: nat)
    requires ValidHits(hits, metadata) && i <= |hits|
    requires ResolveAll(metadata, store, hits[..i]).Err?
    ensures ResolveAll(metadata, store, hits).Err?
    decreases |hits| - i
  {
    if i < |hits| {
      ResolveAllSnoc(metadata, store, hits, i);
      ResolveAllErrSticks(metadata, store, hits, i + 1);
    } else {
      assert hits[..i] == hits;
    }
  }

  /** A missing chunk file is skipped, not an error; the result has the present hits'
      chunks, one per present hit, in search order. */
  lemma {:induction false} ResolveAllPresent(metadata: seq<MetaRecord>, store: ChunkStore, hits: seq<int>)
    requires ValidHits(hits, metadata)
    requires ResolveAll(metadata, store, hits).Ok?
    ensures var hs, ps := ResolveAll(metadata, store, hits).value, Present(metadata, store, hits);
            && |hs| == |ps|
            && forall m | 0 <= m < |ps| :: 0 <= ps[m] < |metadata| && Resolve(metadata, store, ps[m]) == Ok(Some(hs[m]))
  {
    if hits != [] {
      var n := |hits| - 1;
      assert ValidHits(hits[..n], metadata);
      ResolveAllPresent(metadata, store, hits[..n]);
    }
  }

  /** The present hits keep the search order. */
  lemma {:induction false} PresentInOrder(metadata: seq<MetaRecord>, store: ChunkStore, hits: seq<int>)
    requires ValidHits(hits, metadata)
    ensures IsSubsequence(Present(metadata, store, hits), hits)
  {
    if hits != [] {
      var n := |hits| - 1;
      assert ValidHits(hits[..n], metadata);
      PresentInOrder(metadata, store, hits[..n]);
      var ps := Present(metadata, store, hits[..n]);
      assert hits[..n] + [hits[n]] == hits;
      if Key(ChunkPath(metadata[hits[n]])) in store {
        SubsequenceRefl([hits[n]]);
        SubsequenceConcat(ps, hits[..n], [hits[n]], [hits[n]]);
      } else {
        SubsequenceConcat(ps, hits[..n], [], [hits[n]]);
        assert ps + [] == ps;
      }
    }
  }

  /** No more chunks than hits: with `top_k` hits, at most `top_k` chunks. */
  lemma {:induction false} ResolveAllBound(metadata: seq<MetaRecord>, store: ChunkStore, hits: seq<int>)
    requires ValidHits(hits, metadata)
    requires ResolveAll(metadata, store, hits).Ok?
    ensures |ResolveAll(metadata, store, hits).value| <= |hits|
  {
    ResolveAllPresent(metadata, store, hits);
    PresentInOrder(metadata, store, hits);
    SubsequenceLength(Present(metadata, store, hits), hits);
  }

  /** The loop raises exactly when some hit's chunk file exists but its `chunk_id`
      is not a valid index of that file's list: an out-of-range id is never skipped. */
  lemma {:induction false} ResolveAllFails(metadata: seq<MetaRecord>, store: ChunkStore, hits: seq<int>)
    requires ValidHits(hits, metadata)
    ensures ResolveAll(metadata, store, hits).Err?
            <==> exists i | 0 <= i < |hits| :: Resolve(metadata, store, hits[i]).Err?
  {
    if hits != [] {
      var n := |hits| - 1;
      assert ValidHits(hits[..n], metadata);
      ResolveAllFails(metadata, store, hits[..n]);
      if exists i | 0 <= i < n :: Resolve(metadata, store, hits[..n][i]).Err? {
        var i :| 0 <= i < n && Resolve(metadata, store, hits[..n][i]).Err?;
        assert hits[..n][i] == hits[i];
      }
      if exists i | 0 <= i < |hits| :: Resolve(metadata, store, hits[i]).Err? {
        var i :| 0 <= i < |hits| && Resolve(metadata, store, hits[i]).Err?;
        if i < n {
          assert hits[..n][i] == hits[i];
        }
      }
    }
  }

  /** What a failing lookup looks like: the file exists and the id is out of range. */
  lemma ResolveFails(metadata: seq<MetaRecord>, store: ChunkStore, idx: int)
    requires 0 <= idx < |metadata|
    ensures Resolve(metadata, store, idx).Err?
            <==> var path := Key(ChunkPath(metadata[idx]));
                 path in store && !(-|store[path]| <= metadata[idx].chunkId < |store[path]|)
  {
    var path := Key(ChunkPath(metadata[idx]));
    if path in store {
      PyIndexModulo(store[path], metadata[idx].chunkId);
    }
  }
}
