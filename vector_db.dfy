/** Storing chunk embeddings in the vector index (vector_db.py). The index
    service is outside the model: the database object records the index it
    connected to and the batches it sent, in order. */
module VectorDb {
  import opened PdfProcessor

  /** The metadata stored beside each vector. */
  datatype VectorMetadata = VectorMetadata(text: string, company: string, fromYear: string, toYear: string,
                                           filename: string, chunkIndex: nat, totalChunks: nat)

  /** One `(id, values, metadata)` tuple of an upsert call. */
  datatype Vector = Vector(id: string, values: seq<real>, metadata: VectorMetadata)

  /** The tuple upsert_with_metadata builds for a chunk and its embedding. */
  function VectorOf(chunk: Chunk, embedding: seq<real>): Vector {
    Vector(chunk.chunkId, embedding,
           VectorMetadata(chunk.text, chunk.company, chunk.fromYear, chunk.toYear,
                          chunk.filename, chunk.chunkIndex, chunk.totalChunks))
  }

  function Min(a: nat, b: nat): nat {
    if a <= b then a else b
  }

  /** `zip(chunks, embeddings)` turned into vectors: it stops at the end of
      the shorter list. */
  function Vectors(chunks: seq<Chunk>, embeddings: seq<seq<real>>): (r: seq<Vector>)
    ensures |r| == Min(|chunks|, |embeddings|)
    ensures forall i :: 0 <= i < |r| ==> r[i] == VectorOf(chunks[i], embeddings[i])
  {
    if chunks == [] || embeddings == [] then []
    else [VectorOf(chunks[0], embeddings[0])] + Vectors(chunks[1..], embeddings[1..])
  }

  /** The concatenation of a list of batches. */
  function Flatten<T>(bs: seq<seq<T>>): seq<T> {
    if bs == [] then [] else bs[0] + Flatten(bs[1..])
  }

  /** `[vs[i:i + size] for i in range(0, len(vs), size)]`. */
  function Batches<T>(vs: seq<T>, size: nat): seq<seq<T>>
    requires size > 0
    decreases |vs|
  {
    if vs == [] then []
    else
      var end := if |vs| <= size then |vs| else size;
      [vs[..end]] + Batches(vs[end..], size)
  }

  /** The batches together are the vectors again, in order: none is lost,
      repeated or moved. */
  lemma {:induction false} BatchesFlatten<T>(vs: seq<T>, size: nat)
    requires size > 0
    ensures Flatten(Batches(vs, size)) == vs
    decreases |vs|
  {
    if vs != [] {
      var end := if |vs| <= size then |vs| else size;
      var rest := Batches(vs[end..], size);
      var bs := Batches(vs, size);
      BatchesFlatten(vs[end..], size);
      assert bs == [vs[..end]] + rest;
      assert bs[0] == vs[..end] && bs[1..] == rest;
      assert Flatten(bs) == vs[..end] + Flatten(rest);
      assert vs[..end] + vs[end..] == vs;
    }
  }

  /** Every batch holds between 1 and size vectors, and all but the last
      exactly size. */
  lemma {:induction false} BatchSizes<T>(vs: seq<T>, size: nat)
    requires size > 0
    ensures WellSized(Batches(vs, size), size)
    decreases |vs|
  {
    if vs != [] {
      var end := if |vs| <= size then |vs| else size;
      BatchSizes(vs[end..], size);
      var rest := Batches(vs[end..], size);
      var r := Batches(vs, size);
      assert r == [vs[..end]] + rest;
      if end < size {
        assert vs[end..] == [];
        assert rest == [];
      }
      forall i | 0 <= i < |r| ensures 1 <= |r[i]| <= size && (i < |r| - 1 ==> |r[i]| == size) {
        if i > 0 {
          assert r[i] == rest[i - 1];
        } else {
          assert r[0] == vs[..end] && |r[0]| == end;
          assert |r| > 1 ==> rest != [];
        }
      }
    }
  }

  /** Between 1 and size elements in each batch, exactly size in all but
      the last. */
  ghost predicate WellSized<T>(r: seq<seq<T>>, size: nat) {
    (forall i :: 0 <= i < |r| ==> 1 <= |r[i]| <= size)
    && forall i :: 0 <= i < |r| - 1 ==> |r[i]| == size
  }

  /** There are ceil(|vs| / size) batches: enough to hold all vectors, and
      one fewer would not be. */
  lemma {:induction false} BatchCount<T>(vs: seq<T>, size: nat)
    requires size > 0
    ensures (|Batches(vs, size)| - 1) * size < |vs| <= |Batches(vs, size)| * size
    decreases |vs|
  {
    if vs != [] {
      var end := if |vs| <= size then |vs| else size;
      BatchCount(vs[end..], size);
      var c := |Batches(vs[end..], size)|;
      assert |Batches(vs, size)| == c + 1;
      assert (c + 1) * size == c * size + size;
      assert (c + 1 - 1) * size == c * size;
    }
  }

  /** The zip loop of upsert_with_metadata. */
  method BuildVectors(chunks: seq<Chunk>, embeddings: seq<seq<real>>) returns (vectors: seq<Vector>)
    ensures vectors == Vectors(chunks, embeddings)
  {
    vectors := [];
    var n := Min(|chunks|, |embeddings|);
    for i := 0 to n
      invariant vectors + Vectors(chunks[i..], embeddings[i..]) == Vectors(chunks, embeddings)
    {
      assert chunks[i..][1..] == chunks[i + 1..] && embeddings[i..][1..] == embeddings[i + 1..];
      vectors := vectors + [VectorOf(chunks[i], embeddings[i])];
    }
  }

  /** The batches from position i on: the slice of at most size vectors
      at i, then the batches after it. */
  lemma BatchesStep<T>(vs: seq<T>, i: nat, size: nat)
    requires size > 0 && i < |vs|
    ensures var end := if i + size <= |vs| then i + size else |vs|;
      Batches(vs[i..], size) == [vs[i..end]] + Batches(vs[end..], size)
  {
    var end := if i + size <= |vs| then i + size else |vs|;
    assert vs[i..][..end - i] == vs[i..end];
    assert vs[i..][end - i..] == vs[end..];
  }

  /** The batch loop of upsert_with_metadata. */
  method SplitBatches<T>(vectors: seq<T>, size: nat) returns (batches: seq<seq<T>>)
    requires size > 0
    ensures batches == Batches(vectors, size)
  {
    batches := [];
    var i := 0;
    while i < |vectors|
      invariant 0 <= i <= |vectors|
      invariant batches + Batches(vectors[i..], size) == Batches(vectors, size)
      decreases |vectors| - i
    {
      var end := if i + size <= |vectors| then i + size else |vectors|;
      var batch := vectors[i..end];
      BatchesStep(vectors, i, size);
      assert (batches + [batch]) + Batches(vectors[end..], size)
          == batches + ([batch] + Batches(vectors[end..], size));
      batches := batches + [batch];
      i := end;
    }
    assert vectors[|vectors|..] == [];
  }

  /** EnhancedVectorDatabase: the index it connected to and every batch it
      has sent to that index. */
  class VectorDatabase {
    const indexName: string
    /** Whether construction had to create the index. */
    const createdIndex: bool
    /** UPSERT_BATCH_SIZE. */
    const batchSize: nat
    /** The `vectors` argument of each index.upsert call, in order. */
    var upserted: seq<seq<Vector>>

    /** __init__ and _create_or_connect_index: the index is created exactly
        when no index of that name exists yet. */
    constructor(existingIndexes: seq<string>, indexName: string, batchSize: nat)
      requires batchSize > 0
      ensures this.indexName == indexName && this.batchSize == batchSize
      ensures createdIndex <==> indexName !in existingIndexes
      ensures upserted == []
    {
      this.indexName := indexName;
      this.createdIndex := indexName !in existingIndexes;
      this.batchSize := batchSize;
      upserted := [];
    }

    /** upsert_with_metadata(chunks, embeddings): sends the zipped vectors
        in batches of batchSize, in order. */
    method UpsertWithMetadata(chunks: seq<Chunk>, embeddings: seq<seq<real>>)
      requires batchSize > 0
      modifies this
      ensures upserted == old(upserted) + Batches(Vectors(chunks, embeddings), batchSize)
    {
      var vectors := BuildVectors(chunks, embeddings);
      var batches := SplitBatches(vectors, batchSize);
      upserted := upserted + batches;
    }
  }

  /** What one upsert_with_metadata call sends, batch after batch, is the
      i-th chunk paired with the i-th embedding for every i below the length
      of the shorter list. */
  lemma SentVectors(chunks: seq<Chunk>, embeddings: seq<seq<real>>, size: nat)
    requires size > 0
    ensures var sent := Flatten(Batches(Vectors(chunks, embeddings), size));
      |sent| == Min(|chunks|, |embeddings|)
      && forall i :: 0 <= i < |sent| ==> sent[i].id == chunks[i].chunkId && sent[i].values == embeddings[i]
  {
    BatchesFlatten(Vectors(chunks, embeddings), size);
  }
}
