/** Which listed files the file index manager indexes, and under which internal id
    (fileIndexManager.ts, `indexImportedFiles`). Storage listing, the search engine,
    the id generator and the content loader are inputs. */
module FileIndexSelection {
  import opened Js

  /** Configuration defaults: 5 MiB and the spreadsheet/text/PDF MIME types. */
  const MAX_FILE_SIZE: int := 5242880
  const DEFAULT_MIME_TYPES: seq<string> := [
    "application/pdf", "text/plain", "text/csv", "application/vnd.ms-excel",
    "application/vnd.openxmlformats-officedocument.spreadsheetml.sheet"
  ]

  datatype MetaData = MetaData(mimetype: Option<string>, entityId: Option<string>)

  /** A file as the storage listing returns it. */
  datatype StoredFile = StoredFile(
    id: string,
    name: string,
    size: Option<int>,
    metaData: Option<MetaData>,
    lastModified: Option<int>)

  /** A document already in the search index, as the search by file id returns it. */
  datatype ExistingFile = ExistingFile(fileId: string, internalId: string)

  /** A file together with the internal id it is indexed under. */
  datatype FileToLoad = FileToLoad(
    id: string,
    internalId: string,
    entityId: Option<string>,
    name: string,
    uploadedAt: Option<int>)

  /** One upsert payload of the bulk index call. */
  datatype IndexDoc = IndexDoc(
    internalId: string,
    fileId: string,
    fileData: string,
    entityId: Option<string>,
    name: string,
    uploadedAt: Option<int>)

  /** Everything one run reads from outside: the listing, the search answer,
      the fresh-id supply (its n-th call) and the content loader. */
  datatype IndexJob = IndexJob(
    listing: seq<StoredFile>,
    maxFileSize: int,
    mimeTypes: seq<string>,
    existing: seq<ExistingFile>,
    freshId: nat -> string,
    content: string -> string)

  datatype IndexRun =
    | NothingToIndex
    | BulkIndex(searchedIds: seq<string>, docs: seq<IndexDoc>)

  /** `file.metaData.entity_id` on a file listed without metadata throws. */
  datatype IndexError = MissingMetaData(fileId: string)

  /** `file.size || 0` */
  function SizeOrZero(f: StoredFile): int
  {
    match f.size
    case Some(n) => n
    case None => 0
  }

  /** The filter of a non-empty MIME list: size within the limit, a (non-empty) mimetype, listed. */
  predicate Eligible(f: StoredFile, maxFileSize: int, mimeTypes: seq<string>)
  {
    && maxFileSize >= SizeOrZero(f)
    && f.metaData.Some?
    && Present(f.metaData.value.mimetype)
    && f.metaData.value.mimetype.value in mimeTypes
  }

  function FilterEligible(files: seq<StoredFile>, maxFileSize: int, mimeTypes: seq<string>): (r: seq<StoredFile>)
    ensures |r| <= |files|
  {
    if files == [] then []
    else if Eligible(files[0], maxFileSize, mimeTypes) then [files[0]] + FilterEligible(files[1..], maxFileSize, mimeTypes)
    else FilterEligible(files[1..], maxFileSize, mimeTypes)
  }

  /** The files a run goes on with: filtered only when the MIME list is non-empty. */
  function SelectFiles(files: seq<StoredFile>, maxFileSize: int, mimeTypes: seq<string>): (r: seq<StoredFile>)
    ensures |mimeTypes| == 0 ==> r == files
    ensures |mimeTypes| > 0 ==> forall f :: f in r <==> f in files && Eligible(f, maxFileSize, mimeTypes)
  {
    if |mimeTypes| > 0 then
      EligibleMembership(files, maxFileSize, mimeTypes);
      FilterEligible(files, maxFileSize, mimeTypes)
    else files
  }

  lemma {:induction false} EligibleMembership(files: seq<StoredFile>, maxFileSize: int, mimeTypes: seq<string>)
    ensures forall f :: f in FilterEligible(files, maxFileSize, mimeTypes) <==> f in files && Eligible(f, maxFileSize, mimeTypes)
  {
    if files != [] {
      EligibleMembership(files[1..], maxFileSize, mimeTypes);
      assert files == [files[0]] + files[1..];
    }
  }

  /** Filtering distributes over concatenation, so the kept files keep their relative order. */
  lemma {:induction false} FilterEligibleAppend(a: seq<StoredFile>, b: seq<StoredFile>, maxFileSize: int, mimeTypes: seq<string>)
    ensures FilterEligible(a + b, maxFileSize, mimeTypes)
         == FilterEligible(a, maxFileSize, mimeTypes) + FilterEligible(b, maxFileSize, mimeTypes)
  {
    if a == [] {
      assert a + b == b;
    } else {
      assert (a + b)[0] == a[0] && (a + b)[1..] == a[1..] + b;
      FilterEligibleAppend(a[1..], b, maxFileSize, mimeTypes);
    }
  }

  /** A single file is kept exactly when it is eligible. */
  lemma SelectSingle(f: StoredFile, maxFileSize: int, mimeTypes: seq<string>)
    requires |mimeTypes| > 0
    ensures SelectFiles([f], maxFileSize, mimeTypes) == if Eligible(f, maxFileSize, mimeTypes) then [f] else []
  {
    assert [f][1..] == [];
  }

  /** `existingFiles.find(e => e.file_id === fileId)`: the first record for that file id. */
  function FindExisting(existing: seq<ExistingFile>, fileId: string): (r: Option<ExistingFile>)
    ensures r.None? <==> forall e :: e in existing ==> e.fileId != fileId
    ensures r.Some? ==> exists j :: 0 <= j < |existing| && existing[j] == r.value
                          && r.value.fileId == fileId
                          && forall k :: 0 <= k < j ==> existing[k].fileId != fileId
  {
    if existing == [] then None
    else if existing[0].fileId == fileId then Some(existing[0])
    else
      var r := FindExisting(existing[1..], fileId);
      assert forall e :: e in existing[1..] ==> e in existing;
      assert forall e :: e in existing ==> e == existing[0] || e in existing[1..];
      if r.Some? then
        var j :| 0 <= j < |existing[1..]| && existing[1..][j] == r.value
                 && r.value.fileId == fileId
                 && forall k :: 0 <= k < j ==> existing[1..][k].fileId != fileId;
        assert existing[j + 1] == r.value;
        assert forall k :: 0 <= k < j + 1 ==> existing[k].fileId != fileId by {
          forall k | 0 <= k < j + 1 ensures existing[k].fileId != fileId {
            if k > 0 { assert existing[k] == existing[1..][k - 1]; }
          }
        }
        r
      else r
  }

  function EntityIdOf(f: StoredFile): Option<string>
  {
    match f.metaData
    case Some(m) => m.entityId
    case None => None
  }

  function LoadWith(f: StoredFile, internalId: string): FileToLoad
  {
    FileToLoad(f.id, internalId, EntityIdOf(f), f.name, f.lastModified)
  }

  /** The number of files that find no existing record, i.e. the fresh ids a pass consumes. */
  function MintCount(files: seq<StoredFile>, existing: seq<ExistingFile>): nat
  {
    if files == [] then 0
    else (if FindExisting(existing, files[0].id).None? then 1 else 0) + MintCount(files[1..], existing)
  }

  /** `files.map(...)` at :66-77: reuse the internal id of an indexed file, else take the next fresh id.
      `minted` is how many fresh ids were taken before. */
  function ResolveIds(files: seq<StoredFile>, existing: seq<ExistingFile>, freshId: nat -> string, minted: nat): (r: seq<FileToLoad>)
    ensures |r| == |files|
  {
    if files == [] then []
    else
      match FindExisting(existing, files[0].id)
      case Some(e) => [LoadWith(files[0], e.internalId)] + ResolveIds(files[1..], existing, freshId, minted)
      case None => [LoadWith(files[0], freshId(minted))] + ResolveIds(files[1..], existing, freshId, minted + 1)
  }

  /** The id a file is resolved to: the first existing record's, otherwise the fresh id numbered by
      the files before it that had none. */
  function ResolvedId(files: seq<StoredFile>, i: nat, existing: seq<ExistingFile>, freshId: nat -> string, minted: nat): string
    requires i < |files|
  {
    match FindExisting(existing, files[i].id)
    case Some(e) => e.internalId
    case None => freshId(minted + MintCount(files[..i], existing))
  }

  /** One entry per file, in the same order, carrying the file's own fields and its resolved id. */
  lemma {:induction false} ResolveIdsAt(files: seq<StoredFile>, existing: seq<ExistingFile>, freshId: nat -> string, minted: nat, i: nat)
    requires i < |files|
    ensures ResolveIds(files, existing, freshId, minted)[i]
         == LoadWith(files[i], ResolvedId(files, i, existing, freshId, minted))
  {
    if i > 0 {
      var next := if FindExisting(existing, files[0].id).None? then minted + 1 else minted;
      ResolveIdsAt(files[1..], existing, freshId, next, i - 1);
      assert files[1..][..i - 1] == files[..i][1..];
      assert files[..i][0] == files[0];
    }
  }

  /** When every file already has a record, no fresh id is taken and every id is a reused one. */
  lemma {:induction false} AllExistingMintsNothing(files: seq<StoredFile>, existing: seq<ExistingFile>, freshId: nat -> string, minted: nat)
    requires forall f :: f in files ==> exists e :: e in existing && e.fileId == f.id
    ensures MintCount(files, existing) == 0
    ensures forall i :: 0 <= i < |files| ==>
              ResolveIds(files, existing, freshId, minted)[i].internalId == FindExisting(existing, files[i].id).value.internalId
  {
    if files != [] {
      assert files[0] in files;
      var e := FindExisting(existing, files[0].id);
      assert e.Some?;
      assert forall f :: f in files[1..] ==> f in files;
      AllExistingMintsNothing(files[1..], existing, freshId, minted);
      var r := ResolveIds(files, existing, freshId, minted);
      assert r == [LoadWith(files[0], e.value.internalId)] + ResolveIds(files[1..], existing, freshId, minted);
      forall i | 0 <= i < |files| ensures r[i].internalId == FindExisting(existing, files[i].id).value.internalId {
        if i > 0 {
          assert files[i] == files[1..][i - 1];
        }
      }
    }
  }

  /** The records a bulk index of these entries leaves in the search index. */
  function IndexedRecords(loads: seq<FileToLoad>): (r: seq<ExistingFile>)
    ensures |r| == |loads|
    ensures forall i :: 0 <= i < |loads| ==> r[i] == ExistingFile(loads[i].id, loads[i].internalId)
  {
    if loads == [] then [] else [ExistingFile(loads[0].id, loads[0].internalId)] + IndexedRecords(loads[1..])
  }

  predicate DistinctIds(files: seq<StoredFile>)
  {
    forall i, j :: 0 <= i < j < |files| ==> files[i].id != files[j].id
  }

  /** `find` returns the record at the first index carrying the file id. */
  lemma FindExistingFirst(existing: seq<ExistingFile>, fileId: string, i: nat)
    requires i < |existing| && existing[i].fileId == fileId
    requires forall k :: 0 <= k < i ==> existing[k].fileId != fileId
    ensures FindExisting(existing, fileId) == Some(existing[i])
  {
    assert existing[i] in existing;
    var r := FindExisting(existing, fileId);
    var j :| 0 <= j < |existing| && existing[j] == r.value && r.value.fileId == fileId
             && forall k :: 0 <= k < j ==> existing[k].fileId != fileId;
    assert !(j < i) && !(i < j);
  }

  /** Backfill determinism: if the search of a second run finds exactly the documents the first run
      wrote, the second run resolves every file to the same entry, whatever its id supply. */
  lemma RerunReusesIds(files: seq<StoredFile>, existing: seq<ExistingFile>, freshId: nat -> string, minted: nat,
                       freshId2: nat -> string, minted2: nat)
    requires DistinctIds(files)
    ensures var first := ResolveIds(files, existing, freshId, minted);
            ResolveIds(files, IndexedRecords(first), freshId2, minted2) == first
  {
    var first := ResolveIds(files, existing, freshId, minted);
    var records := IndexedRecords(first);
    var second := ResolveIds(files, records, freshId2, minted2);
    forall i | 0 <= i < |files| ensures second[i] == first[i] {
      ResolveIdsAt(files, records, freshId2, minted2, i);
      ResolveIdsAt(files, existing, freshId, minted, i);
      assert records[i].fileId == files[i].id;
      forall k | 0 <= k < i ensures records[k].fileId != files[i].id {
        ResolveIdsAt(files, existing, freshId, minted, k);
      }
      FindExistingFirst(records, files[i].id, i);
    }
  }

  function FirstWithoutMetaData(files: seq<StoredFile>): (r: Option<string>)
    ensures r.None? <==> forall f :: f in files ==> f.metaData.Some?
    ensures r.Some? ==> exists f :: f in files && f.metaData.None? && f.id == r.value
  {
    if files == [] then None
    else if files[0].metaData.None? then Some(files[0].id)
    else
      assert forall f :: f in files ==> f == files[0] || f in files[1..];
      FirstWithoutMetaData(files[1..])
  }

  function FileIds(files: seq<StoredFile>): (r: seq<string>)
    ensures |r| == |files| && forall i :: 0 <= i < |files| ==> r[i] == files[i].id
  {
    if files == [] then [] else [files[0].id] + FileIds(files[1..])
  }

  function LoadDocs(loads: seq<FileToLoad>, content: string -> string): (r: seq<IndexDoc>)
    ensures |r| == |loads|
    ensures forall i :: 0 <= i < |loads| ==>
              r[i] == IndexDoc(loads[i].internalId, loads[i].id, content(loads[i].id), loads[i].entityId, loads[i].name, loads[i].uploadedAt)
  {
    if loads == [] then []
    else
      var f := loads[0];
      [IndexDoc(f.internalId, f.id, content(f.id), f.entityId, f.name, f.uploadedAt)] + LoadDocs(loads[1..], content)
  }

  /** `indexImportedFiles`: select, stop when nothing is left, search by file id, resolve ids,
      load contents (in order) and bulk index. */
  function IndexImportedFiles(job: IndexJob): (r: Result<IndexRun, IndexError>)
    ensures r == Ok(NothingToIndex) <==> SelectFiles(job.listing, job.maxFileSize, job.mimeTypes) == []
    ensures r.Err? <==> SelectFiles(job.listing, job.maxFileSize, job.mimeTypes) != []
                        && FirstWithoutMetaData(SelectFiles(job.listing, job.maxFileSize, job.mimeTypes)).Some?
    ensures r.Err? ==> exists f :: f in SelectFiles(job.listing, job.maxFileSize, job.mimeTypes)
                                   && f.metaData.None? && r.error.fileId == f.id
    ensures r.Err? ==> |job.mimeTypes| == 0
    ensures r.Ok? && r.value.BulkIndex? ==>
              var files := SelectFiles(job.listing, job.maxFileSize, job.mimeTypes);
              && r.value.searchedIds == FileIds(files)
              && |r.value.docs| == |files|
              && forall i :: 0 <= i < |files| ==>
                   && r.value.docs[i].fileId == files[i].id
                   && r.value.docs[i].internalId == ResolvedId(files, i, job.existing, job.freshId, 0)
                   && r.value.docs[i].fileData == job.content(files[i].id)
                   && r.value.docs[i].entityId == EntityIdOf(files[i])
                   && r.value.docs[i].name == files[i].name
                   && r.value.docs[i].uploadedAt == files[i].lastModified
  {
    var files := SelectFiles(job.listing, job.maxFileSize, job.mimeTypes);
    if |files| == 0 then Ok(NothingToIndex)
    else match FirstWithoutMetaData(files)
      case Some(id) =>
        Err(MissingMetaData(id))
      case None =>
        var loads := ResolveIds(files, job.existing, job.freshId, 0);
        var docs := LoadDocs(loads, job.content);
        assert forall i :: 0 <= i < |files| ==> loads[i] == LoadWith(files[i], ResolvedId(files, i, job.existing, job.freshId, 0)) by {
          forall i | 0 <= i < |files| ensures loads[i] == LoadWith(files[i], ResolvedId(files, i, job.existing, job.freshId, 0)) {
            ResolveIdsAt(files, job.existing, job.freshId, 0, i);
          }
        }
        Ok(BulkIndex(FileIds(files), docs))
  }

  /** With a non-empty MIME list an ineligible file is never indexed, and with an empty one every listed file is. */
  lemma IndexedFilesAreSelected(job: IndexJob, f: StoredFile)
    requires IndexImportedFiles(job).Ok? && IndexImportedFiles(job).value.BulkIndex?
    ensures f.id in IndexImportedFiles(job).value.searchedIds <==>
              exists g :: g in job.listing && g.id == f.id && (|job.mimeTypes| > 0 ==> Eligible(g, job.maxFileSize, job.mimeTypes))
  {
    var files := SelectFiles(job.listing, job.maxFileSize, job.mimeTypes);
    var ids := IndexImportedFiles(job).value.searchedIds;
    if f.id in ids {
      var i :| 0 <= i < |ids| && ids[i] == f.id;
      assert files[i] in files;
    }
    if exists g :: g in job.listing && g.id == f.id && (|job.mimeTypes| > 0 ==> Eligible(g, job.maxFileSize, job.mimeTypes)) {
      var g :| g in job.listing && g.id == f.id && (|job.mimeTypes| > 0 ==> Eligible(g, job.maxFileSize, job.mimeTypes));
      assert g in files;
      var i :| 0 <= i < |files| && files[i] == g;
      assert ids[i] == f.id;
    }
  }
}
