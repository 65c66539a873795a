/**
  The file service of `umdrive.py`: storage directory `/app/storage` (an NFS
  mount), uploads up to 1000 MB, a containment check that compares bare
  string prefixes, and a delete route with no containment check.
 */
module UmDrive {
  import opened Options
  import opened Json
  import opened Dicts
  import opened Storage
  import UmDriveTeste

  const StorageDir: string := "/app/storage"

  /** `app.config['MAX_CONTENT_LENGTH']` */
  const MaxContentLength: nat := 1000 * 1024 * 1024

  /**
    `is_within_directory` on already resolved paths: the child's spelling
    starts with the parent's, with no separator boundary.
   */
  predicate IsWithinDirectory(child: string, parent: string): (r: bool)
    ensures r <==> exists rest :: child == parent + rest
  {
    assert parent <= child ==> child == parent + child[|parent|..];
    parent <= child
  }

  /** Whatever the separator-aware check of the other variant accepts, this one accepts too. */
  lemma SeparatorCheckImpliesPrefixCheck(child: string, parent: string)
    requires UmDriveTeste.IsWithinDirectory(child, parent)
    ensures IsWithinDirectory(child, parent)
  {
  }

  /**
    The prefix check also accepts a sibling whose name extends the parent's
    last component, which the separator-aware check rejects.
   */
  lemma PrefixCheckAdmitsSibling(parent: string, suffix: string)
    requires suffix != [] && suffix[0] != Sep
    ensures IsWithinDirectory(parent + suffix, parent)
    ensures !UmDriveTeste.IsWithinDirectory(parent + suffix, parent)
  {
    UmDriveTeste.SiblingIsOutside(parent, suffix);
  }

  /** `/app/storage2` counts as inside `/app/storage`. */
  lemma StorageTwoIsInside()
    ensures IsWithinDirectory("/app/storage2", StorageDir)
    ensures !UmDriveTeste.IsWithinDirectory("/app/storage2", StorageDir)
  {
    PrefixCheckAdmitsSibling(StorageDir, "2");
    assert StorageDir + "2" == "/app/storage2";
  }

  class Drive {
    /** The storage directory, apart from the metadata document. */
    var entries: Entries
    /** The metadata document, as `load_metadata` reads it. */
    var md: Records

    /** `secure_filename` */
    const sanitize: string -> string
    /** `str(Path(p).resolve())` */
    const resolve: string -> string
    /** `json.loads` of bytes written over the metadata document: None when they do not decode as JSON. */
    const readDocument: Bytes -> Option<Json>

    ghost predicate Valid()
      reads this
    {
      && WellFormedEntries(entries)
      && forall raw :: Sep !in sanitize(raw)
    }

    /** `is_within_directory(STORAGE_DIR / name, STORAGE_DIR)` */
    predicate Contained(name: string): (r: bool)
      ensures var child, root := resolve(Join(StorageDir, name)), resolve(StorageDir);
        r <==> exists rest :: child == root + rest
    {
      IsWithinDirectory(resolve(Join(StorageDir, name)), resolve(StorageDir))
    }

    /**
      Start-up: the storage directory holds `files`, and the metadata
      document is created empty when it is absent (or reads as empty when
      it cannot be parsed).
     */
    constructor (files: Entries, document: Option<Records>, sanitize: string -> string,
                 resolve: string -> string, readDocument: Bytes -> Option<Json>)
      requires WellFormedEntries(files)
      requires forall raw :: Sep !in sanitize(raw)
      ensures Valid()
      ensures entries == files && md == LoadMetadata(document)
      ensures this.sanitize == sanitize && this.resolve == resolve && this.readDocument == readDocument
    {
      entries := files;
      md := LoadMetadata(document);
      this.sanitize := sanitize;
      this.resolve := resolve;
      this.readDocument := readDocument;
    }

    /** `GET /api/files`, given the order in which `iterdir` yields the directory. */
    function ListFiles(order: seq<string>): (files: seq<FileInfo>)
      reads this
      requires Valid() && IsDirectoryOrder(order, entries)
      ensures forall n :: multiset(Names(files))[n] == if Listable(entries, n) then 1 else 0
      ensures Sorted(files)
      ensures forall i :: 0 <= i < |files| ==>
        && Listable(entries, files[i].name)
        && files[i].size == |entries[files[i].name].content|
        && files[i].mtime == entries[files[i].name].mtime
        && files[i].downloadUrl == DownloadUrl(files[i].name)
        && files[i].metadata == Get(md, files[i].name, EmptyObject)
    {
      Listing(entries, md, order)
    }

    /** `POST /api/files` */
    method UploadFile(requestLength: nat, part: Option<FilePart>, now: nat) returns (status: nat, body: Body)
      requires Valid()
      modifies this
      ensures Valid()
      ensures requestLength > MaxContentLength ==> status == 413 && body == Failure(TooLarge)
      ensures requestLength <= MaxContentLength && part.None? ==> status == 400 && body == Failure(NoFilePart)
      ensures requestLength <= MaxContentLength && part.Some? && part.value.filename == "" ==>
        status == 400 && body == Failure(EmptyFilename)
      ensures requestLength <= MaxContentLength && part.Some? && part.value.filename != "" ==>
        var safe := sanitize(part.value.filename);
        if IsDirectory(old(entries), safe) || (safe == MetadataName && IsNonObject(readDocument(part.value.content))) then
          status == 500 && body == Failure(Unhandled)
        else
          status == 201 && body == Uploaded(safe)
      ensures status != 201 ==> entries == old(entries) && md == old(md)
      ensures status == 201 ==>
        var safe := sanitize(part.value.filename);
        if safe == MetadataName then
          entries == old(entries) &&
          md == SetDefault(LoadMetadata(ObjectOf(readDocument(part.value.content))), MetadataName, EmptyObject)
        else
          entries == old(entries)[safe := File(part.value.content, now)] &&
          md == SetDefault(old(md), safe, EmptyObject)
    {
      if requestLength > MaxContentLength {
        return 413, Failure(TooLarge);
      }
      if part.None? {
        return 400, Failure(NoFilePart);
      }
      var f := part.value;
      if f.filename == "" {
        return 400, Failure(EmptyFilename);
      }
      var filename := sanitize(f.filename);
      if IsDirectory(entries, filename) {
        // f.save on the directory itself raises
        return 500, Failure(Unhandled);
      }
      var doc: Records;
      if filename == MetadataName {
        // the upload overwrote the metadata document, so it is read back from the new bytes
        var decoded := readDocument(f.content);
        if IsNonObject(decoded) {
          // setdefault on a list, number, string, boolean or null raises
          return 500, Failure(Unhandled);
        }
        doc := LoadMetadata(ObjectOf(decoded));
      } else {
        entries := entries[filename := File(f.content, now)];
        doc := md;
      }
      doc := SetDefault(doc, filename, EmptyObject);
      md := doc;
      return 201, Uploaded(filename);
    }

    /** `GET /api/files/<filename>/download`, up to the hand-off to `send_from_directory`. */
    method DownloadFile(filename: string) returns (status: nat, body: Body)
      requires Valid()
      ensures var safe := sanitize(filename);
        && (!Exists(entries, safe) ==> status == 404 && body == Failure(NotFound))
        && (Exists(entries, safe) && !Contained(safe) ==> status == 400 && body == Failure(InvalidPath))
        && (Exists(entries, safe) && Contained(safe) ==> status == 200 && body == Attachment(safe))
    {
      var safe := sanitize(filename);
      if !Exists(entries, safe) {
        return 404, Failure(NotFound);
      }
      if !Contained(safe) {
        return 400, Failure(InvalidPath);
      }
      return 200, Attachment(safe);
    }

    /** `DELETE /api/files/<filename>`: no containment check before unlinking. */
    method DeleteFile(filename: string) returns (status: nat, body: Body)
      requires Valid()
      modifies this
      ensures Valid()
      ensures var safe := sanitize(filename);
        && (!Exists(old(entries), safe) ==> status == 404 && body == Failure(NotFound))
        && (Exists(old(entries), safe) && IsDirectory(old(entries), safe) ==>
              status == 500 && body == Failure(Unhandled))
        && (Exists(old(entries), safe) && !IsDirectory(old(entries), safe) ==>
              status == 200 && body == Deleted(safe))
      ensures status != 200 ==> entries == old(entries) && md == old(md)
      ensures status == 200 ==>
        var safe := sanitize(filename);
        if safe == MetadataName then entries == old(entries) && md == map[]
        else entries == Pop(old(entries), safe) && md == Pop(old(md), safe)
    {
      var safe := sanitize(filename);
      if !Exists(entries, safe) {
        return 404, Failure(NotFound);
      }
      if IsDirectory(entries, safe) {
        // unlink on a directory raises
        return 500, Failure(Unhandled);
      }
      var doc: Records;
      if safe == MetadataName {
        // the document itself was unlinked, so loading it yields {}
        doc := LoadMetadata(None);
      } else {
        entries := Pop(entries, safe);
        doc := md;
      }
      doc := Pop(doc, safe);
      md := doc;
      return 200, Deleted(safe);
    }

    /** `GET /api/files/<filename>/metadata` */
    method ReadMetadata(filename: string) returns (record: Json)
      requires Valid()
      ensures sanitize(filename) in md ==> record == md[sanitize(filename)]
      ensures sanitize(filename) !in md ==> record == EmptyObject
    {
      var doc := md;
      record := Get(doc, sanitize(filename), EmptyObject);
    }

    /** `POST /api/files/<filename>/metadata` */
    method WriteMetadata(filename: string, data: Json) returns (status: nat, body: Body)
      requires Valid()
      modifies this
      ensures Valid() && entries == old(entries)
      ensures !data.JObject? ==> status == 400 && body == Failure(NotAnObject) && md == old(md)
      ensures data.JObject? ==>
        status == 200 && body == MetadataUpdated(sanitize(filename)) &&
        md == old(md)[sanitize(filename) := data]
    {
      var safe := sanitize(filename);
      var doc := md;
      if !data.JObject? {
        return 400, Failure(NotAnObject);
      }
      doc := doc[safe := data];
      md := doc;
      return 200, MetadataUpdated(safe);
    }
  }

  /** After a file is deleted, download answers 404 and its metadata reads as `{}`. */
  method DeleteThenFetch(d: Drive, filename: string) returns (deleted: nat, downloaded: nat, record: Json)
    requires d.Valid()
    modifies d
    ensures d.Valid()
    ensures deleted == 200 && d.sanitize(filename) != MetadataName ==>
      downloaded == 404 && record == EmptyObject
  {
    var body;
    deleted, body := d.DeleteFile(filename);
    downloaded, body := d.DownloadFile(filename);
    record := d.ReadMetadata(filename);
  }
}
