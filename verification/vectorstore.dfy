/** The per-document vector store behind `create_faiss_index` and `search_similar_chunks`:
    the directory `faiss_index` holds, for a document id, the file `{id}.index` (the vectors)
    and the file `{id}_chunks.json` (the chunk texts). FAISS itself is an opaque search
    engine; the post-filtering of its answer follows the code exactly. */
module VectorStore {
  import opened Common
  import opened Embeddings
  import Config

  type DocId = int

  /** Which of the two files exist for each document id, and what they hold. */
  datatype Store = Store(indexFiles: map<DocId, seq<Vector>>, chunkFiles: map<DocId, seq<string>>)

  /** `create_faiss_index` returned True, returned False, or raised (the embeddings could not
      be turned into a `1536`-column float32 matrix and added to the index). */
  datatype BuildStatus = Created | Declined | Raised

  datatype Build = Build(status: BuildStatus, store: Store)

  /** Both files of document `id` are present. */
  predicate Indexed(store: Store, id: DocId)
  {
    id in store.indexFiles && id in store.chunkFiles
  }

  /** `create_faiss_index(id, chunks)`. */
  function CreateIndex(store: Store, config: Config.Config, id: DocId, chunks: seq<string>,
                       transport: EmbeddingRequest -> EmbeddingReply,
                       rand: (nat, nat) -> real): (b: Build)
    ensures b.status != Created ==> b.store == store
    ensures chunks == [] ==> b.status == Declined
    ensures var emb := GetEmbeddings(config, chunks, transport, rand);
      b.status == Created <==> chunks != [] && emb.Some? && emb.value != [] && HasDim(emb.value)
    ensures var emb := GetEmbeddings(config, chunks, transport, rand);
      b.status == Raised <==> chunks != [] && emb.Some? && emb.value != [] && !HasDim(emb.value)
    ensures b.status == Created ==>
      && Indexed(b.store, id)
      && b.store.chunkFiles == store.chunkFiles[id := chunks]
      && b.store.indexFiles[id] == GetEmbeddings(config, chunks, transport, rand).value
      && (forall other :: other != id && other in store.indexFiles ==>
            other in b.store.indexFiles && b.store.indexFiles[other] == store.indexFiles[other])
      && (forall other :: other in b.store.indexFiles ==> other == id || other in store.indexFiles)
  {
    if chunks == [] then Build(Declined, store)
    else
      match GetEmbeddings(config, chunks, transport, rand)
      case None => Build(Declined, store)
      case Some(vs) =>
        if vs == [] then Build(Declined, store)
        else if !HasDim(vs) then Build(Raised, store)
        else Build(Created, Store(store.indexFiles[id := vs], store.chunkFiles[id := chunks]))
  }

  /** In simulation mode a build for non-empty chunks always succeeds, with one vector per
      chunk. */
  lemma SimulatedBuildSucceeds(store: Store, config: Config.Config, id: DocId,
                               chunks: seq<string>,
                               transport: EmbeddingRequest -> EmbeddingReply,
                               rand: (nat, nat) -> real)
    requires config.simulationMode && chunks != []
    ensures var b := CreateIndex(store, config, id, chunks, transport, rand);
      b.status == Created && |b.store.indexFiles[id]| == |chunks|
  {
  }

  /** An embedding API that answers with an error status makes the build decline. */
  lemma FailedEmbeddingDeclines(store: Store, config: Config.Config, id: DocId,
                                chunks: seq<string>,
                                transport: EmbeddingRequest -> EmbeddingReply,
                                rand: (nat, nat) -> real)
    requires !config.simulationMode
    requires transport(EmbeddingRequestFor(config, chunks)).EmbeddingHttp?
    requires transport(EmbeddingRequestFor(config, chunks)).status != 200
    ensures CreateIndex(store, config, id, chunks, transport, rand) == Build(Declined, store)
  {
  }

  // ---------------------------------------------------------------------------------------
  // Search

  /** One entry of `zip(scores[0], indices[0])`. */
  datatype Hit = Hit(score: real, index: int)

  /** One `{'text': ..., 'score': ...}` dictionary. */
  datatype SearchResult = SearchResult(text: string, score: real)

  /** `index.search(query_np, top_k)` for the stored vectors, the query matrix and `top_k`,
      restricted to the first query row; `None` when it raises. */
  type Engine = (seq<Vector>, seq<Vector>, int) -> Option<seq<Hit>>

  /** Python's `chunks[idx]`: a negative index counts from the end; out of range raises
      `IndexError` (`None`). */
  function PyIndex(chunks: seq<string>, idx: int): (r: Option<string>)
    ensures r.Some? <==> -|chunks| <= idx < |chunks|
    ensures 0 <= idx < |chunks| ==> r == Some(chunks[idx])
    ensures -|chunks| <= idx < 0 ==> r == Some(chunks[|chunks| + idx])
  {
    if 0 <= idx < |chunks| then Some(chunks[idx])
    else if -|chunks| <= idx < 0 then Some(chunks[|chunks| + idx])
    else None
  }

  /** The loop over the hits: a hit is kept when `idx < len(chunks)`; a kept hit whose
      index is below `-len(chunks)` raises, which loses every result. */
  function PostFilter(hits: seq<Hit>, chunks: seq<string>): (r: Option<seq<SearchResult>>)
    ensures r.Some? ==> |r.value| <= |hits|
    decreases |hits|
  {
    if |hits| == 0 then Some([])
    else
      var h := hits[0];
      var rest := PostFilter(hits[1..], chunks);
      if h.index < |chunks| then
        match PyIndex(chunks, h.index)
        case None => None
        case Some(t) => if rest.None? then None else Some([SearchResult(t, h.score)] + rest.value)
      else rest
  }

  /** The hits the guard keeps, in order. */
  function Kept(hits: seq<Hit>, n: int): (k: seq<Hit>)
    ensures |k| <= |hits|
    ensures forall i :: 0 <= i < |k| ==> k[i].index < n
    decreases |hits|
  {
    if |hits| == 0 then []
    else if hits[0].index < n then [hits[0]] + Kept(hits[1..], n)
    else Kept(hits[1..], n)
  }

  /** No kept hit points before the start of the chunk list. */
  predicate InRange(hits: seq<Hit>, n: int)
  {
    forall i :: 0 <= i < |hits| && hits[i].index < n ==> -n <= hits[i].index
  }

  /** The results a well-formed list of hits gives, by reference: the kept hits, each
      mapped to the chunk it designates under Python indexing. */
  function Resolve(kept: seq<Hit>, chunks: seq<string>): (r: seq<SearchResult>)
    requires forall i :: 0 <= i < |kept| ==> -|chunks| <= kept[i].index < |chunks|
    ensures |r| == |kept|
  {
    seq(|kept|, i requires 0 <= i < |kept| =>
      SearchResult(PyIndex(chunks, kept[i].index).value, kept[i].score))
  }

  lemma {:induction false} KeptInRange(hits: seq<Hit>, n: int)
    requires InRange(hits, n)
    ensures forall i :: 0 <= i < |Kept(hits, n)| ==> -n <= Kept(hits, n)[i].index < n
    decreases |hits|
  {
    if |hits| > 0 {
      assert InRange(hits[1..], n) by {
        forall i | 0 <= i < |hits[1..]| && hits[1..][i].index < n
          ensures -n <= hits[1..][i].index
        {
          assert hits[1..][i] == hits[i + 1];
        }
      }
      KeptInRange(hits[1..], n);
    }
  }

  /** The post-filtering succeeds exactly when no kept hit is out of range, and then it
      gives the reference results. */
  lemma {:induction false} PostFilterSpec(hits: seq<Hit>, chunks: seq<string>)
    ensures PostFilter(hits, chunks).Some? <==> InRange(hits, |chunks|)
    ensures InRange(hits, |chunks|) ==>
      KeptInRangeFacts(hits, chunks) &&
      PostFilter(hits, chunks).value == Resolve(Kept(hits, |chunks|), chunks)
    decreases |hits|
  {
    var n := |chunks|;
    if |hits| > 0 {
      PostFilterSpec(hits[1..], chunks);
      assert InRange(hits, n) <==> (hits[0].index < n ==> -n <= hits[0].index) && InRange(hits[1..], n) by {
        if InRange(hits[1..], n) && (hits[0].index < n ==> -n <= hits[0].index) {
          forall i | 0 <= i < |hits| && hits[i].index < n
            ensures -n <= hits[i].index
          {
            if i > 0 {
              assert hits[i] == hits[1..][i - 1];
            }
          }
        }
        if InRange(hits, n) {
          forall i | 0 <= i < |hits[1..]| && hits[1..][i].index < n
            ensures -n <= hits[1..][i].index
          {
            assert hits[1..][i] == hits[i + 1];
          }
        }
      }
      if InRange(hits, n) {
        KeptInRange(hits, n);
        KeptInRange(hits[1..], n);
      }
    }
  }

  /** Helper fact for the statement of `PostFilterSpec`: `Resolve` may be applied. */
  predicate KeptInRangeFacts(hits: seq<Hit>, chunks: seq<string>)
  {
    forall i :: 0 <= i < |Kept(hits, |chunks|)| ==>
      -|chunks| <= Kept(hits, |chunks|)[i].index < |chunks|
  }

  /** `search_similar_chunks(id, query, top_k)`. */
  function SearchSimilarChunks(store: Store, config: Config.Config, id: DocId, query: string,
                               topK: int, transport: EmbeddingRequest -> EmbeddingReply,
                               rand: (nat, nat) -> real, engine: Engine)
    : (r: seq<SearchResult>)
    ensures !Indexed(store, id) ==> r == []
    ensures GetEmbeddings(config, [query], transport, rand) in {None, Some([])} ==> r == []
    ensures r != [] ==>
      && Indexed(store, id)
      && var q := GetEmbeddings(config, [query], transport, rand).value;
      && q != [] && HasDim(q)
      && var hits := engine(store.indexFiles[id], q, topK);
      && hits.Some? && PostFilter(hits.value, store.chunkFiles[id]) == Some(r)
    ensures Indexed(store, id) ==>
      var q := GetEmbeddings(config, [query], transport, rand);
      q.Some? && q.value != [] && !HasDim(q.value) ==> r == []
    ensures Indexed(store, id) ==>
      var q := GetEmbeddings(config, [query], transport, rand);
      q.Some? && q.value != [] && HasDim(q.value) ==>
        var hits := engine(store.indexFiles[id], q.value, topK);
        && (hits.None? ==> r == [])
        && (hits.Some? && PostFilter(hits.value, store.chunkFiles[id]).None? ==> r == [])
        && (hits.Some? && PostFilter(hits.value, store.chunkFiles[id]).Some? ==>
              r == PostFilter(hits.value, store.chunkFiles[id]).value)
  {
    if !Indexed(store, id) then []
    else
      match GetEmbeddings(config, [query], transport, rand)
      case None => []
      case Some(q) =>
        if q == [] || !HasDim(q) then []
        else
          match engine(store.indexFiles[id], q, topK)
          case None => []
          case Some(hits) => PostFilter(hits, store.chunkFiles[id]).GetOr([])
  }

  /** A search on a built index whose engine answers with in-range hits returns exactly the
      reference results: the hits passing `idx < len(chunks)`, in order, each with its chunk. */
  lemma SearchResolvesHits(store: Store, config: Config.Config, id: DocId, query: string,
                           topK: int, transport: EmbeddingRequest -> EmbeddingReply,
                           rand: (nat, nat) -> real, engine: Engine)
    requires Indexed(store, id)
    requires var q := GetEmbeddings(config, [query], transport, rand);
      q.Some? && q.value != [] && HasDim(q.value)
    requires var q := GetEmbeddings(config, [query], transport, rand).value;
      var hits := engine(store.indexFiles[id], q, topK);
      hits.Some? && InRange(hits.value, |store.chunkFiles[id]|)
    ensures var q := GetEmbeddings(config, [query], transport, rand).value;
      var hits := engine(store.indexFiles[id], q, topK).value;
      var chunks := store.chunkFiles[id];
      KeptInRangeFacts(hits, chunks) &&
      SearchSimilarChunks(store, config, id, query, topK, transport, rand, engine)
        == Resolve(Kept(hits, |chunks|), chunks)
  {
    var q := GetEmbeddings(config, [query], transport, rand).value;
    PostFilterSpec(engine(store.indexFiles[id], q, topK).value, store.chunkFiles[id]);
  }

  /** An engine that honours `top_k` bounds the number of results by `top_k`. */
  lemma SearchAtMostTopK(store: Store, config: Config.Config, id: DocId, query: string,
                         topK: int, transport: EmbeddingRequest -> EmbeddingReply,
                         rand: (nat, nat) -> real, engine: Engine)
    requires topK >= 0
    requires forall vs, q, k :: engine(vs, q, k).Some? ==> |engine(vs, q, k).value| <= k
    ensures |SearchSimilarChunks(store, config, id, query, topK, transport, rand, engine)| <= topK
  {
    var r := SearchSimilarChunks(store, config, id, query, topK, transport, rand, engine);
    if r != [] {
      var q := GetEmbeddings(config, [query], transport, rand).value;
      var hits := engine(store.indexFiles[id], q, topK);
      assert hits.Some? && |hits.value| <= topK;
      assert |PostFilter(hits.value, store.chunkFiles[id]).value| <= |hits.value|;
    }
  }

  /** The results keep the engine's order: scores sorted by decreasing value stay so. */
  lemma {:induction false} PostFilterKeepsOrder(hits: seq<Hit>, chunks: seq<string>)
    requires forall i, j :: 0 <= i < j < |hits| ==> hits[i].score >= hits[j].score
    requires PostFilter(hits, chunks).Some?
    ensures var r := PostFilter(hits, chunks).value;
      forall i, j :: 0 <= i < j < |r| ==> r[i].score >= r[j].score
    ensures var r := PostFilter(hits, chunks).value;
      forall i :: 0 <= i < |r| ==> exists k :: 0 <= k < |hits| && r[i].score == hits[k].score
    decreases |hits|
  {
    if |hits| > 0 {
      PostFilterKeepsOrder(hits[1..], chunks);
      var rest := PostFilter(hits[1..], chunks).value;
      forall i | 0 <= i < |rest|
        ensures hits[0].score >= rest[i].score
        ensures exists k :: 0 <= k < |hits| && rest[i].score == hits[k].score
      {
        var k :| 0 <= k < |hits[1..]| && rest[i].score == hits[1..][k].score;
        assert hits[1..][k] == hits[k + 1];
      }
    }
  }

  const NoResult: int := -1

  /** FAISS's "no result" index `-1` passes the guard and yields the last chunk. */
  lemma MinusOneGivesLastChunk(score: real, chunks: seq<string>)
    requires chunks != []
    ensures PostFilter([Hit(score, NoResult)], chunks)
         == Some([SearchResult(chunks[|chunks| - 1], score)])
  {
    var hits := [Hit(score, NoResult)];
    assert hits[1..] == [];
    assert PostFilter(hits[1..], chunks) == Some([]);
    assert PyIndex(chunks, NoResult) == Some(chunks[|chunks| - 1]);
    var one := SearchResult(chunks[|chunks| - 1], score);
    assert [one] + [] == [one];
  }

  /** Only indices at or beyond the end of the chunk list are dropped; an index below
      `-len(chunks)` voids the whole search. */
  lemma OutOfRangeVoidsSearch(hits: seq<Hit>, chunks: seq<string>, i: nat)
    requires i < |hits| && hits[i].index < -|chunks|
    ensures PostFilter(hits, chunks) == None
  {
    PostFilterSpec(hits, chunks);
  }

  /** After a successful build, a search of the same document reads back exactly the chunks
      that were stored. */
  lemma BuildThenSearch(store: Store, config: Config.Config, id: DocId, chunks: seq<string>,
                        transport: EmbeddingRequest -> EmbeddingReply,
                        rand: (nat, nat) -> real, query: string, topK: int, engine: Engine)
    requires CreateIndex(store, config, id, chunks, transport, rand).status == Created
    requires var q := GetEmbeddings(config, [query], transport, rand);
      q.Some? && q.value != [] && HasDim(q.value)
    ensures var s := CreateIndex(store, config, id, chunks, transport, rand).store;
      var q := GetEmbeddings(config, [query], transport, rand).value;
      var hits := engine(s.indexFiles[id], q, topK);
      SearchSimilarChunks(s, config, id, query, topK, transport, rand, engine)
        == if hits.None? then [] else PostFilter(hits.value, chunks).GetOr([])
  {
  }
}
