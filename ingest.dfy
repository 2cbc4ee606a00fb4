/**
 * The two stores of the ingest engine and what `put`, `delete`, `count` and
 * `check_storage_consistency` do to them, as functions on their abstract
 * values.
 *
 * The content store is the set of primary digests with a stored object; the
 * metadata index maps the sha256 primary key of `stored_files_metadata` to
 * its row. The class in module Storage is proved to follow these functions.
 */
module Ingest {
  import opened Admission
  import opened Digests

  /** A `StoredFileMetadata` row; the `stored_date` column is not modelled. */
  datatype Metadata = Metadata(sha256: string, md5: string, sha1: string)

  /** The digest columns of a row, the names `hasattr` finds on it. */
  const DigestColumns: set<string> := {"sha256", "md5", "sha1"}

  /** `getattr(row, column)` for a digest column. */
  function Column(row: Metadata, column: string): string
    requires column in DigestColumns
  {
    match column
    case "sha256" => row.sha256
    case "md5" => row.md5
    case _ => row.sha1
  }

  /** `setattr(row, column, value)` for a digest column: that column changes, no other. */
  function SetColumn(row: Metadata, column: string, value: string): (r: Metadata)
    requires column in DigestColumns
    ensures Column(r, column) == value
    ensures forall c :: c in DigestColumns && c != column ==> Column(r, c) == Column(row, c)
  {
    match column
    case "sha256" => row.(sha256 := value)
    case "md5" => row.(md5 := value)
    case _ => row.(sha1 := value)
  }

  /** Every wanted algorithm names a digest column, so `_store_metadata` never raises `AttributeError`. */
  lemma WantedAlgosAreColumns()
    ensures forall algo :: algo in WantedAlgos ==> algo in DigestColumns
  {
  }

  /** The row `_store_metadata` writes for a digest set: each column holds the digest of the same name. */
  function RowOf(hashes: map<string, string>): (row: Metadata)
    requires forall algo :: algo in WantedAlgos ==> algo in hashes
    ensures forall algo :: algo in WantedAlgos ==> Column(row, algo) == hashes[algo]
  {
    Metadata(hashes["sha256"], hashes["md5"], hashes["sha1"])
  }

  /** `session.merge` then `commit`: the row is inserted, or overwrites the row with its primary key. */
  function Merge(index: map<string, Metadata>, row: Metadata): (index': map<string, Metadata>)
    ensures index'.Keys == index.Keys + {row.sha256}
    ensures index'[row.sha256] == row
    ensures forall key :: key in index && key != row.sha256 ==> index'[key] == index[key]
  {
    index[row.sha256 := row]
  }

  /** The abstract state: the content store and the metadata index. */
  datatype Stores = Stores(objects: set<string>, index: map<string, Metadata>)

  /** `HashAddress` without its two paths: the id and whether the content was already stored. */
  datatype HashAddress = HashAddress(id: string, isDuplicate: bool)

  /**
   * What `put` ends with: `None` for a rejected file, an address, or the
   * failure of the copy step when the configured algorithm is not one of the
   * wanted ones (the digest set then has no entry for it).
   */
  datatype PutResult = Skipped | Placed(address: HashAddress) | NoPrimaryDigest(algorithm: string)

  datatype PutOutcome = PutOutcome(stores: Stores, result: PutResult)

  /** What `delete` ends with: success, or the failure on a missing metadata row. */
  datatype DeleteResult = Deleted | RecordNotFound

  datatype DeleteOutcome = DeleteOutcome(stores: Stores, result: DeleteResult)

  /** `CandyStorageConsistency(fs_count, db_count, consistent)`. */
  datatype Report = Report(fsCount: nat, dbCount: nat, consistent: bool)

  /**
   * The content store's copy step: the object is stored under its id unless
   * an object with that id is already there, which makes it a duplicate.
   */
  function Place(objects: set<string>, id: string): (r: (set<string>, bool))
    ensures id in objects ==> r == (objects, true)
    ensures id !in objects ==> |r.0| == |objects| + 1 && id in r.0 && !r.1
    ensures objects <= r.0
  {
    assert id in objects ==> objects + {id} == objects;
    (objects + {id}, id in objects)
  }

  /**
   * `put` over a classifier verdict and the bytes of the file: a rejected
   * file changes nothing; otherwise the digest set is computed, its row merged
   * into the index and only then the object placed under the digest of the
   * configured algorithm.
   */
  function Put(s: Stores, verdict: Verdict, algorithm: string, hash: Hasher, data: Bytes): (o: PutOutcome)
    ensures s.objects <= o.stores.objects && s.index.Keys <= o.stores.index.Keys
    ensures o.result.Placed? ==> o.result.address.id in o.stores.objects
    ensures o.result.Skipped? <==> !verdict.Admitted()
    ensures KeyedBySha256(s) ==> KeyedBySha256(o.stores)
  {
    if !verdict.Admitted() then PutOutcome(s, Skipped)
    else
      var hashes := DigestSet(hash, data);
      var index := Merge(s.index, RowOf(hashes));
      if algorithm !in hashes then PutOutcome(Stores(s.objects, index), NoPrimaryDigest(algorithm))
      else
        var (objects, isDuplicate) := Place(s.objects, hashes[algorithm]);
        PutOutcome(Stores(objects, index), Placed(HashAddress(hashes[algorithm], isDuplicate)))
  }

  /**
   * `delete(sha256)`: the object goes first (a no-op when absent), then the
   * metadata row; a missing row is a failure, reached after the object is gone.
   */
  function Delete(s: Stores, sha256: string): (o: DeleteOutcome)
    ensures sha256 !in o.stores.objects && sha256 !in o.stores.index
    ensures o.stores.objects <= s.objects && o.stores.index.Keys <= s.index.Keys
    ensures o.result == Deleted <==> sha256 in s.index
    ensures KeyedBySha256(s) ==> KeyedBySha256(o.stores)
  {
    var objects := s.objects - {sha256};
    if sha256 in s.index then DeleteOutcome(Stores(objects, s.index - {sha256}), Deleted)
    else DeleteOutcome(Stores(objects, s.index), RecordNotFound)
  }

  /** `count(use_database)`: rows of the index, or objects of the content store. */
  function Count(s: Stores, useDatabase: bool): nat
  {
    if useDatabase then |s.index| else |s.objects|
  }

  /**
   * `check_storage_consistency`: both counts, consistent exactly when they
   * agree. Stores holding the same digests always pass.
   */
  function CheckConsistency(s: Stores): (r: Report)
    ensures Synced(s) ==> r.consistent
  {
    var fsCount := Count(s, false);
    var dbCount := Count(s, true);
    Report(fsCount, dbCount, fsCount == dbCount)
  }

  /** The two stores hold the same digests: every object has its row and every row its object. */
  ghost predicate Synced(s: Stores) {
    s.objects == s.index.Keys
  }

  /** Every row sits under its own sha256: the key and the `sha256` column are one primary key. */
  ghost predicate KeyedBySha256(s: Stores) {
    forall key :: key in s.index ==> s.index[key].sha256 == key
  }

  /**
   * The digest row of some content, as `put` writes it, spelt out column by
   * column so that lemmas about `put` can name it; `RowForIsRowOf` shows it
   * is the row `_store_metadata` builds from the digest set.
   */
  function RowFor(hash: Hasher, data: Bytes): Metadata {
    Metadata(hash("sha256", data), hash("md5", data), hash("sha1", data))
  }

  /** `RowFor` is the row of the digest set of the same bytes. */
  lemma RowForIsRowOf(hash: Hasher, data: Bytes)
    ensures RowFor(hash, data) == RowOf(DigestSet(hash, data))
  {
  }

  // ---------------------------------------------------------------------------
  // Properties of put

  /** A rejected file leaves both stores as they were, whatever its content. */
  lemma PutRejectedChangesNothing(s: Stores, verdict: Verdict, algorithm: string, hash: Hasher, data1: Bytes, data2: Bytes)
    requires !verdict.Admitted()
    ensures Put(s, verdict, algorithm, hash, data1) == Put(s, verdict, algorithm, hash, data2) == PutOutcome(s, Skipped)
  {
  }

  /**
   * An admitted file merges the row of its three digests, keyed by its sha256,
   * and leaves every other row alone; the metadata is written whether or not
   * the copy step then succeeds.
   */
  lemma PutMergesRow(s: Stores, verdict: Verdict, algorithm: string, hash: Hasher, data: Bytes)
    requires verdict.Admitted()
    ensures Put(s, verdict, algorithm, hash, data).stores.index == s.index[hash("sha256", data) := RowFor(hash, data)]
  {
  }

  /**
   * An admitted file is placed under its digest for the configured algorithm,
   * reported as a duplicate exactly when that digest was stored already; when
   * the algorithm is not a wanted one, nothing is placed.
   */
  lemma PutPlacesUnderAlgorithm(s: Stores, verdict: Verdict, algorithm: string, hash: Hasher, data: Bytes)
    requires verdict.Admitted()
    ensures algorithm in WantedAlgos ==>
      var o := Put(s, verdict, algorithm, hash, data);
      var id := hash(algorithm, data);
      o.result == Placed(HashAddress(id, id in s.objects)) && o.stores.objects == s.objects + {id}
    ensures algorithm !in WantedAlgos ==>
      Put(s, verdict, algorithm, hash, data) == PutOutcome(Stores(s.objects, s.index[hash("sha256", data) := RowFor(hash, data)]), NoPrimaryDigest(algorithm))
  {
  }

  /** The index grows by one row for new content and not at all for content it already has. */
  lemma PutIndexCount(s: Stores, verdict: Verdict, algorithm: string, hash: Hasher, data: Bytes)
    requires verdict.Admitted()
    ensures |Put(s, verdict, algorithm, hash, data).stores.index|
         == if hash("sha256", data) in s.index then |s.index| else |s.index| + 1
  {
    PutMergesRow(s, verdict, algorithm, hash, data);
  }

  /**
   * Putting the same content twice: the second `put` changes neither store
   * and reports a duplicate at the same address.
   */
  lemma RePutIsDuplicate(s: Stores, verdict: Verdict, algorithm: string, hash: Hasher, data: Bytes)
    requires verdict.Admitted() && algorithm in WantedAlgos
    ensures var first := Put(s, verdict, algorithm, hash, data);
            var second := Put(first.stores, verdict, algorithm, hash, data);
            && second.stores == first.stores
            && |second.stores.index| == |first.stores.index|
            && second.result == Placed(HashAddress(hash(algorithm, data), true))
  {
  }

  // ---------------------------------------------------------------------------
  // Properties of delete

  /** Deleting stored content removes its object and exactly its row; every other row stays. */
  lemma DeleteRemovesOneRow(s: Stores, sha256: string)
    requires sha256 in s.index
    ensures var o := Delete(s, sha256);
            && o.result == Deleted
            && o.stores.objects == s.objects - {sha256}
            && o.stores.index.Keys == s.index.Keys - {sha256}
            && |o.stores.index| == |s.index| - 1
            && forall key :: key in o.stores.index ==> o.stores.index[key] == s.index[key]
  {
  }

  /** Deleting a digest without a row fails, after its object (if any) is removed. */
  lemma DeleteMissingRowFails(s: Stores, sha256: string)
    requires sha256 !in s.index
    ensures Delete(s, sha256) == DeleteOutcome(Stores(s.objects - {sha256}, s.index), RecordNotFound)
  {
  }

  /**
   * With sha256 as the configured algorithm, putting new content and then
   * deleting it restores both stores; deleting it again fails.
   */
  lemma PutThenDeleteRestores(s: Stores, verdict: Verdict, hash: Hasher, data: Bytes)
    requires verdict.Admitted()
    requires hash("sha256", data) !in s.objects && hash("sha256", data) !in s.index
    ensures var put := Put(s, verdict, "sha256", hash, data);
            var del := Delete(put.stores, hash("sha256", data));
            && put.result == Placed(HashAddress(hash("sha256", data), false))
            && del == DeleteOutcome(s, Deleted)
            && Delete(del.stores, hash("sha256", data)).result == RecordNotFound
  {
  }

  // ---------------------------------------------------------------------------
  // Properties of the consistency check

  /** An empty storage is consistent with both counts zero. */
  lemma EmptyIsConsistent()
    ensures CheckConsistency(Stores({}, map[])) == Report(0, 0, true)
  {
  }

  /**
   * The check compares counts only: stores that hold different digests in
   * equal numbers pass it.
   */
  lemma CountsMissDrift()
    ensures var s := Stores({"a"}, map["b" := Metadata("b", "", "")]);
            CheckConsistency(s).consistent && !Synced(s) && KeyedBySha256(s)
  {
  }

  /** With sha256 as the configured algorithm, `put` keeps the stores in step. */
  lemma PutKeepsSynced(s: Stores, verdict: Verdict, hash: Hasher, data: Bytes)
    requires Synced(s)
    ensures Synced(Put(s, verdict, "sha256", hash, data).stores)
  {
  }

  /** `delete` keeps the stores in step, whether or not it fails. */
  lemma DeleteKeepsSynced(s: Stores, sha256: string)
    requires Synced(s)
    ensures Synced(Delete(s, sha256).stores)
  {
  }

  /** Losing one object of stores in step is caught by the consistency check. */
  lemma LostObjectIsDetected(s: Stores, id: string)
    requires Synced(s) && id in s.objects
    ensures !CheckConsistency(Stores(s.objects - {id}, s.index)).consistent
  {
  }

  /**
   * With another configured algorithm, the object is stored under a digest
   * that is not the row's key, so new content leaves the stores out of step.
   */
  lemma OtherAlgorithmBreaksSync(s: Stores, verdict: Verdict, algorithm: string, hash: Hasher, data: Bytes)
    requires Synced(s) && verdict.Admitted() && algorithm in WantedAlgos
    requires hash(algorithm, data) != hash("sha256", data) && hash(algorithm, data) !in s.objects
    ensures !Synced(Put(s, verdict, algorithm, hash, data).stores)
  {
  }
}
