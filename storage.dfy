/**
 * `CandyStorage`: the ingest engine as an object holding the content store
 * and the metadata index, whose methods change them step by step as the
 * source does. Each method is proved to follow its function in module Ingest.
 *
 * A file is given by what the two classifiers print for it (already
 * stripped) and by the chunks its stream yields.
 */
module Storage {
  import opened Admission
  import opened Digests
  import opened Ingest

  class CandyStorage {
    /** The HashFS `algorithm` setting, the name of the primary digest. */
    const algorithm: string
    /** The hash functions behind `hashlib`. */
    const hash: Hasher
    /** The MIME allow-list used by the admission filter. */
    const mimetypes: set<string>

    /** Primary digests with an object in the content store. */
    var objects: set<string>
    /** `stored_files_metadata`, keyed by sha256. */
    var index: map<string, Metadata>

    function State(): Stores
      reads this
    {
      Stores(objects, index)
    }

    /** The table's primary key: every row sits under its own sha256. */
    ghost predicate Valid()
      reads this
    {
      KeyedBySha256(State())
    }

    /** Opens a storage whose two stores already hold `existing`. */
    constructor (algorithm: string, hash: Hasher, mimetypes: set<string>, existing: Stores)
      requires KeyedBySha256(existing)
      ensures Valid()
      ensures this.algorithm == algorithm && this.hash == hash && this.mimetypes == mimetypes
      ensures State() == existing
    {
      this.algorithm := algorithm;
      this.hash := hash;
      this.mimetypes := mimetypes;
      objects := existing.objects;
      index := existing.index;
    }

    /** `_store_metadata`: fill a fresh row column by column, then merge it into the index. */
    method StoreMetadata(hashes: map<string, string>)
      requires forall algo :: algo in WantedAlgos ==> algo in hashes
      modifies this`index
      ensures index == Merge(old(index), RowOf(hashes))
    {
      WantedAlgosAreColumns();
      var row := Metadata("", "", "");
      for k := 0 to |WantedAlgos|
        invariant forall j :: 0 <= j < k ==> Column(row, WantedAlgos[j]) == hashes[WantedAlgos[j]]
      {
        row := SetColumn(row, WantedAlgos[k], hashes[WantedAlgos[k]]);
      }
      assert WantedAlgos[0] == "md5" && WantedAlgos[1] == "sha1" && WantedAlgos[2] == "sha256";
      assert row == RowOf(hashes);
      index := index[row.sha256 := row];
    }

    /** The content store's copy step for an object with digest `id`. */
    method CopyObject(id: string) returns (isDuplicate: bool)
      modifies this`objects
      ensures (objects, isDuplicate) == Place(old(objects), id)
    {
      isDuplicate := id in objects;
      objects := objects + {id};
    }

    /** `put`: admission, digests, metadata, then the copy step. */
    method Put(fileType: string, xdgMime: string, chunks: seq<Bytes>) returns (r: PutResult)
      requires Valid()
      modifies this
      ensures Valid()
      ensures var o := Ingest.Put(old(State()), WantedFile(mimetypes, fileType, xdgMime), algorithm, hash, Concat(chunks));
              State() == o.stores && r == o.result
    {
      var wantedType := WantedFile(mimetypes, fileType, xdgMime);
      if !wantedType.Admitted() {
        return Skipped;
      }
      var hashes := ComputeHashes(hash, chunks);
      StoreMetadata(hashes);
      if algorithm !in hashes {
        return NoPrimaryDigest(algorithm);
      }
      var fileId := hashes[algorithm];
      var isDuplicate := CopyObject(fileId);
      r := Placed(HashAddress(fileId, isDuplicate));
    }

    /** `delete(sha256)`: remove the object, then the metadata row. */
    method Delete(sha256: string) returns (r: DeleteResult)
      requires Valid()
      modifies this
      ensures Valid()
      ensures var o := Ingest.Delete(old(State()), sha256);
              State() == o.stores && r == o.result
    {
      objects := objects - {sha256};
      if sha256 !in index {
        return RecordNotFound;
      }
      index := index - {sha256};
      r := Deleted;
    }

    /** `count(use_database)`. */
    method Count(useDatabase: bool) returns (n: nat)
      ensures n == Ingest.Count(State(), useDatabase)
    {
      if useDatabase {
        n := |index|;
      } else {
        n := |objects|;
      }
    }

    /** `check_storage_consistency`: reads both counts and changes neither store. */
    method CheckStorageConsistency() returns (r: Report)
      ensures r == CheckConsistency(State())
      ensures r.consistent <==> |objects| == |index|
    {
      var fsCount := Count(false);
      var dbCount := Count(true);
      r := Report(fsCount, dbCount, fsCount == dbCount);
    }
  }

  /** Two puts of the same content through the object: the second is a duplicate and changes nothing. */
  method RePutScenario(storage: CandyStorage, fileType: string, xdgMime: string, chunks: seq<Bytes>)
    returns (second: PutResult)
    requires storage.Valid()
    requires WantedFile(storage.mimetypes, fileType, xdgMime).Admitted() && storage.algorithm in WantedAlgos
    modifies storage
    ensures storage.Valid()
    ensures storage.State() == Ingest.Put(old(storage.State()), WantedFile(storage.mimetypes, fileType, xdgMime),
                                          storage.algorithm, storage.hash, Concat(chunks)).stores
    ensures second == Placed(HashAddress(storage.hash(storage.algorithm, Concat(chunks)), true))
  {
    var first := storage.Put(fileType, xdgMime, chunks);
    second := storage.Put(fileType, xdgMime, chunks);
    RePutIsDuplicate(old(storage.State()), WantedFile(storage.mimetypes, fileType, xdgMime),
                     storage.algorithm, storage.hash, Concat(chunks));
  }
}
