/**
 * The multi-digest engine (`CandyStorage.computehashes`).
 *
 * The hash algorithms themselves are not modelled: a `Hasher` maps an
 * algorithm name and the complete byte sequence fed to it to the hex digest,
 * and a running hash computation is abstracted as the bytes fed to it so far.
 */
module Digests {

  type Byte = bv8
  type Bytes = seq<Byte>

  /** `hashlib.new(name)` fed with some bytes, then `hexdigest()`. */
  type Hasher = (string, Bytes) -> string

  /** `WANTED_ALGOS`, in the source's order. */
  const WantedAlgos: seq<string> := ["md5", "sha1", "sha256"]

  /** The number of bytes in all chunks together. */
  function TotalLength(chunks: seq<Bytes>): nat {
    if chunks == [] then 0 else |chunks[0]| + TotalLength(chunks[1..])
  }

  /**
   * The bytes of a stream read chunk after chunk, in order: they start with
   * the first chunk, and every byte of every chunk is fed exactly once.
   */
  function Concat(chunks: seq<Bytes>): (data: Bytes)
    ensures chunks != [] ==> chunks[0] <= data
    ensures |data| == TotalLength(chunks)
  {
    if chunks == [] then [] else chunks[0] + Concat(chunks[1..])
  }

  /** Reading two streams one after the other reads their concatenation. */
  lemma {:induction false} ConcatAppend(a: seq<Bytes>, b: seq<Bytes>)
    ensures Concat(a + b) == Concat(a) + Concat(b)
  {
    if a == [] {
      assert a + b == b;
    } else {
      assert (a + b)[1..] == a[1..] + b;
      ConcatAppend(a[1..], b);
    }
  }

  /** Reading one more chunk appends it to what was read. */
  lemma ConcatSnoc(chunks: seq<Bytes>, chunk: Bytes)
    ensures Concat(chunks + [chunk]) == Concat(chunks) + chunk
  {
    ConcatAppend(chunks, [chunk]);
    assert Concat([chunk]) == chunk + Concat([]);
  }

  /**
   * The digest set of a byte sequence: exactly the keys `md5`, `sha1` and
   * `sha256`, each the digest of the same bytes under that algorithm.
   */
  function DigestSet(hash: Hasher, data: Bytes): (digests: map<string, string>)
    ensures digests.Keys == {"md5", "sha1", "sha256"}
    ensures forall algo :: algo in digests ==> digests[algo] == hash(algo, data)
  {
    map algo | algo in WantedAlgos :: hash(algo, data)
  }

  /**
   * Splitting one chunk of a stream in two does not change its digests:
   * they depend on the bytes alone, not on how the stream cuts them.
   */
  lemma {:induction false} RechunkKeepsDigests(hash: Hasher, chunks: seq<Bytes>, i: nat, cut: nat)
    requires i < |chunks| && cut <= |chunks[i]|
    ensures DigestSet(hash, Concat(chunks[..i] + [chunks[i][..cut], chunks[i][cut..]] + chunks[i + 1..]))
         == DigestSet(hash, Concat(chunks))
  {
    var pre, post := chunks[..i], chunks[i + 1..];
    calc {
      Concat(pre + [chunks[i][..cut], chunks[i][cut..]] + post);
      { ConcatAppend(pre + [chunks[i][..cut], chunks[i][cut..]], post);
        ConcatAppend(pre, [chunks[i][..cut], chunks[i][cut..]]); }
      Concat(pre) + Concat([chunks[i][..cut], chunks[i][cut..]]) + Concat(post);
      { var x, y := chunks[i][..cut], chunks[i][cut..];
        assert [x, y][1..] == [y] && [y][1..] == [];
        assert Concat([y]) == y + Concat([]) == y;
        assert Concat([x, y]) == x + Concat([y]);
        assert x + y == chunks[i] && [chunks[i]][1..] == [];
        assert Concat([chunks[i]]) == chunks[i] + []; }
      Concat(pre) + Concat([chunks[i]]) + Concat(post);
      { ConcatAppend(pre, [chunks[i]]); ConcatAppend(pre + [chunks[i]], post); }
      Concat(pre + [chunks[i]] + post);
      { assert pre + [chunks[i]] + post == chunks; }
      Concat(chunks);
    }
  }

  /**
   * `computehashes`: one pass over the stream feeds every chunk to every
   * wanted algorithm, then each running computation is replaced by its hex
   * digest.
   */
  method ComputeHashes(hash: Hasher, chunks: seq<Bytes>) returns (hashes: map<string, string>)
    ensures hashes == DigestSet(hash, Concat(chunks))
  {
    var running: map<string, Bytes> := map[];
    for k := 0 to |WantedAlgos|
      invariant running.Keys == set j | 0 <= j < k :: WantedAlgos[j]
      invariant forall algo :: algo in running ==> running[algo] == []
    {
      running := running[WantedAlgos[k] := []];
    }
    for i := 0 to |chunks|
      invariant running.Keys == set j | 0 <= j < |WantedAlgos| :: WantedAlgos[j]
      invariant forall algo :: algo in running ==> running[algo] == Concat(chunks[..i])
    {
      ghost var fed := Concat(chunks[..i]);
      for k := 0 to |WantedAlgos|
        invariant running.Keys == set j | 0 <= j < |WantedAlgos| :: WantedAlgos[j]
        invariant forall j :: 0 <= j < k ==> running[WantedAlgos[j]] == fed + chunks[i]
        invariant forall j :: k <= j < |WantedAlgos| ==> running[WantedAlgos[j]] == fed
      {
        var algo := WantedAlgos[k];
        running := running[algo := running[algo] + chunks[i]];
      }
      ConcatSnoc(chunks[..i], chunks[i]);
      assert chunks[..i + 1] == chunks[..i] + [chunks[i]];
    }
    assert chunks[..|chunks|] == chunks;
    hashes := map[];
    for k := 0 to |WantedAlgos|
      invariant hashes.Keys == set j | 0 <= j < k :: WantedAlgos[j]
      invariant forall algo :: algo in hashes ==> hashes[algo] == hash(algo, Concat(chunks))
    {
      var algo := WantedAlgos[k];
      hashes := hashes[algo := hash(algo, running[algo])];
    }
  }
}
