# CandyStorage ingest engine, modelled in Dafny

This project models the storage engine of candymill, `CandyStorage`. The engine
ingests office documents into a content-addressed store and indexes their
digests in a metadata table. Four modules follow the engine's parts:

- `Admission` (admission.dfy) is the admission filter `_wanted_file`. It is a
  pure decision over the stripped outputs of `file --brief` and
  `xdg-mime query filetype`, and the MIME allow-list `INTERESTING_MIMETYPES`.
  The list is kept exactly as written, misspelt entry included. It is
  grouped into three families of correctly spelt entries plus the last one.
- `Digests` (digests.dfy) is the digest engine `computehashes`. It is a method
  with the source's three loops: one starts a running computation per
  algorithm, one feeds every chunk to every algorithm, and one replaces each
  computation by its hex digest. The method is proved to return `DigestSet` of
  the concatenated chunks. The hash algorithms are a `Hasher` parameter, and a
  running computation is abstracted as the bytes fed to it so far.
- `Ingest` (ingest.dfy) gives the abstract state `Stores`, which pairs the
  content store (the set of stored primary digests) with the metadata index
  (the `stored_files_metadata` rows keyed by sha256). It also gives what
  `put`, `delete`, `count` and `check_storage_consistency` do to that state,
  as functions, and the lemmas about them.
- `Storage` (storage.dfy) is the class `CandyStorage`. Its fields are the two
  stores and its methods `Put`, `StoreMetadata`, `Delete`, `Count` and
  `CheckStorageConsistency` update or read them step by step. Each method is
  proved to follow its function in `Ingest`.

In three places the code behaves differently from what a reader might
expect, and the model follows the code:

- A classifier that exits with a non-zero status is not an error in the code.
  `subprocess.run` is called without checking the exit status, and whatever
  a classifier printed is used as its output. Empty `file` output only means
  the file is not a Microsoft type, so the MIME check decides. Empty MIME
  output is not on the list, so the file is rejected. The model takes the
  outputs as strings and behaves the same way.
  (A classifier binary that is missing altogether raises `FileNotFoundError`;
  that failure is not modelled.)
- Deleting a digest without a metadata row crashes in the code
  (`session.delete(None)`), and it does so after the object has been removed.
  The model returns `RecordNotFound` in that state, with the object already
  gone.
- `put` merges the metadata row before the copy step. If the configured
  algorithm is not one of `md5`, `sha1`, `sha256`, the digest set has no entry
  for it and the copy step fails. The row is already written by then. The
  model returns `NoPrimaryDigest` with the index updated and the content store
  unchanged.

## Model

| member | source | states |
|---|---|---|
| Admission.WantedFile | candymill/candymill.py:81-94 | the verdict is "Microsoft" exactly when the `file` output starts with `Microsoft `; otherwise it is the MIME string exactly when that string is on the allow-list; otherwise the file is rejected |
| Admission.MicrosoftSkipsMimeClassifier | candymill/candymill.py:84-88 | with the Microsoft prefix, the verdict is the same whatever the MIME classifier says |
| Admission.AdmittedIff | candymill/candymill.py:121-123 | `put` goes on exactly when the `file` output has the Microsoft prefix or the MIME string is listed and non-empty (Python truthiness) |
| Admission.AllowListAdmits | candymill/candymill.py:90-94 | past the Microsoft check, a file is admitted under the source's list exactly when its MIME string is on that list |
| Admission.PdfAdmittedTextRejected | candymill/candymill.py:33-71 | `application/pdf` is admitted and reported by its MIME string; `text/plain` is rejected |
| Admission.NoEmptyEntry | candymill/candymill.py:33-71 | neither list holds the empty string, so a listed MIME string always reads as true |
| Admission.MisspeltEntryRejectsAddin | candymill/candymill.py:70 | as written, the list holds the misspelt entry but not the add-in type, so a file of that type is rejected |
| Admission.IntendedReplacesOneEntry | candymill/candymill.py:33-71 | the corrected list is the source's list with the misspelt entry replaced, and it has the same size |
| Admission.IntendedAcceptsAddin | candymill/candymill.py:90-94 | with the corrected list, the add-in type is admitted, and past the Microsoft check a file is admitted exactly when it is listed |
| Digests.Concat | candymill/candymill.py:102-104 | the bytes read from the stream chunk by chunk start with the first chunk, and their number is the sum of the chunk lengths: every byte is fed exactly once |
| Digests.ConcatAppend | candymill/candymill.py:102-104 | reading two chunk sequences one after the other feeds their concatenation |
| Digests.ConcatSnoc | candymill/candymill.py:102-104 | reading one more chunk appends it to the bytes fed so far |
| Digests.DigestSet | candymill/candymill.py:97-107 | a digest set has exactly the keys `md5`, `sha1`, `sha256`, each mapped to that algorithm's digest of the same bytes |
| Digests.RechunkKeepsDigests | candymill/candymill.py:97-107 | splitting any chunk of the stream in two leaves the digest set unchanged: digests depend on the bytes only |
| Digests.ComputeHashes | candymill/candymill.py:97-107 | the single pass returns the digest set of the in-order concatenation of all chunks |
| Ingest.SetColumn | candymill/candymill.py:142 | `setattr` on a digest column changes that column to the value and no other column |
| Ingest.WantedAlgosAreColumns | candymill/candymill.py:139-141 | every wanted algorithm names a column of the row, so the `AttributeError` branch is never taken |
| Ingest.RowOf | candymill/candymill.py:138-142 | the row written for a digest set holds, in each column, the digest of the same name |
| Ingest.RowForIsRowOf | candymill/candymill.py:138-142 | the row `put` writes for some content holds, column by column, the digests of the digest set of those bytes |
| Ingest.Merge | candymill/candymill.py:143-145 | merging adds the row's sha256 key, sets it to the row, and keeps every other row |
| Ingest.Place | candymill/candymill.py:129 | copying a digest already stored leaves the store as it was and reports a duplicate; copying a new one grows the store by exactly that object and reports no duplicate |
| Ingest.Put | candymill/candymill.py:109-130 | `put` never removes an object or a row; a placed address is in the content store afterwards; the result is "skipped" exactly for a rejected file; every row stays under its own sha256 |
| Ingest.Delete | candymill/candymill.py:147-157 | afterwards neither store holds the digest and nothing was added; the delete succeeds exactly when the row existed; every row stays under its own sha256 |
| Ingest.CheckConsistency | candymill/candymill.py:171-177 | stores holding the same digests always pass the count comparison |
| Ingest.PutRejectedChangesNothing | candymill/candymill.py:121-123 | a rejected file changes neither store, whatever its content, and `put` returns no address |
| Ingest.PutMergesRow | candymill/candymill.py:126-128 | an admitted file merges the row of its md5, sha1 and sha256 of the same bytes under its sha256, whether or not the copy step then succeeds |
| Ingest.PutPlacesUnderAlgorithm | candymill/candymill.py:127-130 | the address id is the digest under the configured algorithm and the duplicate flag says whether it was stored already; an unknown algorithm places nothing |
| Ingest.PutIndexCount | candymill/candymill.py:143-145 | the index grows by one row for new content and by none for content it already indexes |
| Ingest.RePutIsDuplicate | candymill/candymill.py:109-130 | a second `put` of the same content changes neither store and reports a duplicate at the same id |
| Ingest.DeleteRemovesOneRow | candymill/candymill.py:147-157 | deleting indexed content removes its object and exactly its row; the other rows are unchanged |
| Ingest.DeleteMissingRowFails | candymill/candymill.py:153-156 | deleting a digest without a row fails, with the object already removed and the index unchanged |
| Ingest.PutThenDeleteRestores | candymill/candymill.py:147-157 | with sha256 as the primary algorithm, put of new content then delete restores both stores; a second delete fails |
| Ingest.EmptyIsConsistent | candymill/candymill.py:171-177 | empty stores report counts 0 and 0, consistent |
| Ingest.CountsMissDrift | candymill/candymill.py:171-177 | the check compares counts only: a store with object `a` and an index with row `b` pass it although they hold different digests |
| Ingest.PutKeepsSynced | candymill/candymill.py:109-130 | with sha256 as the primary algorithm, `put` keeps the two stores holding the same digests |
| Ingest.DeleteKeepsSynced | candymill/candymill.py:147-157 | `delete` keeps the two stores holding the same digests, whether or not it fails |
| Ingest.LostObjectIsDetected | candymill/candymill.py:171-177 | stores in step that lose one object fail the check |
| Ingest.OtherAlgorithmBreaksSync | candymill/candymill.py:127-129 | with another primary algorithm, new content is stored under a digest that is not its row's key, so the stores drift |
| Storage.CandyStorage.constructor | candymill/candymill.py:74-79 | opens a storage with the given algorithm, hash functions and allow-list over existing stores whose rows sit under their own sha256 (the primary key of candymill.py line 182) |
| Storage.CandyStorage.StoreMetadata | candymill/candymill.py:132-145 | the column-by-column loop builds the row of the digest set and merges it into the index |
| Storage.CandyStorage.CopyObject | candymill/candymill.py:129 | the copy step adds the digest to the content store and returns whether it was there |
| Storage.CandyStorage.Put | candymill/candymill.py:109-130 | the stores and the result are those of `Ingest.Put` on the admission verdict and the concatenated chunks; every row stays under its own sha256 |
| Storage.CandyStorage.Delete | candymill/candymill.py:147-157 | the stores and the result are those of `Ingest.Delete`; every row stays under its own sha256 |
| Storage.CandyStorage.Count | candymill/candymill.py:159-169 | returns the index size or the content-store size, reading only |
| Storage.CandyStorage.CheckStorageConsistency | candymill/candymill.py:171-177 | reports both counts, consistent exactly when the two stores have the same size, and modifies nothing |
| Storage.RePutScenario | candymill/candymill.py:109-130 | two calls of the object's `Put` with the same content leave the state of the first, and the second returns a duplicate address under the configured algorithm's digest |

## Left out

- The `file` and `xdg-mime` subprocesses, their paths from the environment, the UTF-8 decoding and the `strip()` calls. The stripped outputs are inputs of `WantedFile`.
- The hash algorithms of `hashlib`. A `Hasher` function value stands for them; MD5, SHA-1 and SHA-256 internals are not modelled.
- HashFS internals, whose code is not part of this model: `Stream`, the file copy, `relpath`, path sharding by depth and width, file modes, empty-directory pruning and the filesystem walk of `count()`. The content store is a set of digests. The model assumes that `_copy` reports a duplicate exactly when an object with that id is already stored, and that the content-store delete of an absent id does nothing.
- `put` on an already-open readable object. The docstring of `put` allows one, but `_wanted_file` hands it to `subprocess.run` as an argument, which raises `TypeError` before anything is stored. The model covers `put` on a path only.
- The `extension` parameter of `put`. The only caller passes `None`, and with an extension the duplicate check would be per path, not per digest.
- The relative and absolute paths in `HashAddress`. The model keeps the id and the duplicate flag.
- SQLAlchemy engines, sessions and commits, `setup_database`, and the `stored_date` column with its `utcnow` default. The index is a map from sha256 to rows.
- Storage.CandyStorage.StoreMetadata: starts from a row of empty strings where the source starts from `None` columns. Every column is overwritten before the merge, so the merged row is the same.
- `__repr__` and `__str__` of `StoredFileMetadata`.
- A storage built with `engine_url=None`, which has no `_engine`. A rejected `put` still returns `None`. An admitted `put` computes the digests and then fails in `_store_metadata`, before the copy step. `delete` removes the object and then fails. `count(True)`, and with it `check_storage_consistency`, fails. The model always has an index.
- Failures of I/O: unreadable files, read errors of the stream, and database or filesystem errors. The model has no failure paths for them.
- manage.py: the command-line parser, the directory walk and the printing.

## Findings

| source | as written | input that shows it | evidently intended | confidence | as-written member | corrected member |
|---|---|---|---|---|---|---|
| candymill/candymill.py:70 | the last allow-list entry is `pplication/vnd.ms-excel.addin.macroEnabled.12` | a file whose `file` output lacks the `Microsoft ` prefix and whose MIME type is `application/vnd.ms-excel.addin.macroEnabled.12` is rejected | the entry `application/vnd.ms-excel.addin.macroEnabled.12`, so that Excel add-ins are admitted like the other macro-enabled Office types | high; not executed | Admission.MisspeltEntryRejectsAddin | Admission.IntendedAcceptsAddin |

`Admission.InterestingMimetypes` is the list as written and `Admission.IntendedMimetypes` the corrected one. `CandyStorage` takes its allow-list when it is constructed, and every property of `put` holds for either list.
