/**
  The file service of `umDrive_Teste.py`: storage directory `storage`,
  uploads up to 100 MB, a separator-aware containment check, and a delete
  route that checks containment before unlinking.
 */
module UmDriveTeste {
  import opened Options
  import opened Json
  import opened Dicts
  import opened Storage

  const StorageDir: string := "storage"

  /** `app.config['MAX_CONTENT_LENGTH']` */
  const MaxContentLength: nat := 100 * 1024 * 1024

  /**
    `is_within_directory` on already resolved paths: the child is the
    parent itself, or starts with the parent followed by the separator.
   */
  predicate IsWithinDirectory(child: string, parent: string): (r: bool)
    ensures r <==> child == parent || exists rest :: child == parent + [Sep] + rest
  {
    assert parent + [Sep] <= child ==> child == parent + [Sep] + child[|parent| + 1..];
    child == parent || parent + [Sep] <= child
  }

  /** A sibling that merely shares the parent's spelling as a prefix is outside. */
  lemma SiblingIsOutside(parent: string, suffix: string)
    requires suffix != [] && suffix[0] != Sep
    ensures !IsWithinDirectory(parent + suffix, parent)
  {
    assert (parent + suffix)[|parent|] == suffix[0];
  }

  class Drive {
    /** The storage directory, apart from the metadata document. */
    var entries: Entries
    /** The metadata document, as `load_metadata` reads it. */
    var md: Records

    /** `secure_filename` */
    const sanitize: string -> string
    /** `str(Path(p).resolve())` */
    const resolve: string -> string
    /** `json.loads` of bytes written over the metadata document: None when they do not decode as JSON. */
    const readDocument: Bytes -> Option<Json>

    ghost predicate Valid()
      reads this
    {
      && WellFormedEntries(entries)
      && forall raw :: Sep !in sanitize(raw)
    }

    /** `is_within_directory(STORAGE_DIR / name, STORAGE_DIR)` */
    predicate Contained(name: string): (r: bool)
      ensures var child, root := resolve(Join(StorageDir, name)), resolve(StorageDir);
        r <==> child == root || exists rest :: child == root + [Sep] + rest
    {
      IsWithinDirectory(resolve(Join(StorageDir, name)), resolve(StorageDir))
    }

    /**
      Start-up: the storage directory holds `files`, and the metadata
      document is created empty when it is absent (or reads as empty when
      it cannot be parsed).
     */
    constructor (files: Entries, document: Option<Records>, sanitize: string -> string,
                 resolve: string -> string, readDocument: Bytes -> Option<Json>)
      requires WellFormedEntries(files)
      requires forall raw :: Sep !in sanitize(raw)
      ensures Valid()
      ensures entries == files && md == LoadMetadata(document)
      ensures this.sanitize == sanitize && this.resolve == resolve && this.readDocument == readDocument
    {
      entries := files;
      md := LoadMetadata(document);
      this.sanitize := sanitize;
      this.resolve := resolve;
      this.readDocument := readDocument;
    }

    /** `GET /api/files`, given the order in which `iterdir` yields the directory. */
    function ListFiles(order: seq<string>): (files: seq<FileInfo>)
      reads this
      requires Valid() && IsDirectoryOrder(order, entries)
      ensures forall n :: multiset(Names(files))[n] == if Listable(entries, n) then 1 else 0
      ensures Sorted(files)
      ensures forall i :: 0 <= i < |files| ==>
        && Listable(entries, files[i].name)
        && files[i].size == |entries[files[i].name].content|
        && files[i].mtime == entries[files[i].name].mtime
        && files[i].downloadUrl == DownloadUrl(files[i].name)
        && files[i].metadata == Get(md, files[i].name, EmptyObject)
    {
      Listing(entries, md, order)
    }

    /** `POST /api/files` */
    method UploadFile(requestLength: nat, part: Option<FilePart>, now: nat) returns (status: nat, body: Body)
      requires Valid()
      modifies this
      ensures Valid()
      ensures requestLength > MaxContentLength ==> status == 413 && body == Failure(TooLarge)
      ensures requestLength <= MaxContentLength && part.None? ==> status == 400 && body == Failure(NoFilePart)
      ensures requestLength <= MaxContentLength && part.Some? && part.value.filename == "" ==>
        status == 400 && body == Failure(EmptyFilename)
      ensures requestLength <= MaxContentLength && part.Some? && part.value.filename != "" ==>
        var safe := sanitize(part.value.filename);
        if IsDirectory(old(entries), safe) || (safe == MetadataName && IsNonObject(readDocument(part.value.content))) then
          status == 500 && body == Failure(Unhandled)
        else
          status == 201 && body == Uploaded(safe)
      ensures status != 201 ==> entries == old(entries) && md == old(md)
      ensures status == 201 ==>
        var safe := sanitize(part.value.filename);
        if safe == MetadataName then
          entries == old(entries) &&
          md == SetDefault(LoadMetadata(ObjectOf(readDocument(part.value.content))), MetadataName, EmptyObject)
        else
          entries == old(entries)[safe := File(part.value.content, now)] &&
          md == SetDefault(old(md), safe, EmptyObject)
    {
      if requestLength > MaxContentLength {
        return 413, Failure(TooLarge);
      }
      if part.None? {
        return 400, Failure(NoFilePart);
      }
      var f := part.value;
      if f.filename == "" {
        return 400, Failure(EmptyFilename);
      }
      var filename := sanitize(f.filename);
      if IsDirectory(entries, filename) {
        // f.save on the directory itself raises
        return 500, Failure(Unhandled);
      }
      var doc: Records;
      if filename == MetadataName {
        // the upload overwrote the metadata document, so it is read back from the new bytes
        var decoded := readDocument(f.content);
        if IsNonObject(decoded) {
          // setdefault on a list, number, string, boolean or null raises
          return 500, Failure(Unhandled);
        }
        doc := LoadMetadata(ObjectOf(decoded));
      } else {
        entries := entries[filename := File(f.content, now)];
        doc := md;
      }
      doc := SetDefault(doc, filename, EmptyObject);
      md := doc;
      return 201, Uploaded(filename);
    }

    /** `GET /api/files/<filename>/download`, up to the hand-off to `send_from_directory`. */
    method DownloadFile(filename: string) returns (status: nat, body: Body)
      requires Valid()
      ensures var safe := sanitize(filename);
        && (!Exists(entries, safe) ==> status == 404 && body == Failure(NotFound))
        && (Exists(entries, safe) && !Contained(safe) ==> status == 400 && body == Failure(InvalidPath))
        && (Exists(entries, safe) && Contained(safe) ==> status == 200 && body == Attachment(safe))
      ensures status == 200 ==>
        var child, root := resolve(Join(StorageDir, sanitize(filename))), resolve(StorageDir);
        child == root || exists rest :: child == root + [Sep] + rest
    {
      var safe := sanitize(filename);
      if !Exists(entries, safe) {
        return 404, Failure(NotFound);
      }
      if !Contained(safe) {
        return 400, Failure(InvalidPath);
      }
      return 200, Attachment(safe);
    }

    /** `DELETE /api/files/<filename>` */
    method DeleteFile(filename: string) returns (status: nat, body: Body)
      requires Valid()
      modifies this
      ensures Valid()
      ensures var safe := sanitize(filename);
        && (!Exists(old(entries), safe) ==> status == 404 && body == Failure(NotFound))
        && (Exists(old(entries), safe) && !Contained(safe) ==> status == 400 && body == Failure(InvalidPath))
        && (Exists(old(entries), safe) && Contained(safe) && IsDirectory(old(entries), safe) ==>
              status == 500 && body == Failure(Unhandled))
        && (Exists(old(entries), safe) && Contained(safe) && !IsDirectory(old(entries), safe) ==>
              status == 200 && body == Deleted(safe))
      ensures status != 200 ==> entries == old(entries) && md == old(md)
      ensures status == 200 ==>
        var safe := sanitize(filename);
        if safe == MetadataName then entries == old(entries) && md == map[]
        else entries == Pop(old(entries), safe) && md == Pop(old(md), safe)
    {
      var safe := sanitize(filename);
      if !Exists(entries, safe) {
        return 404, Failure(NotFound);
      }
      if !Contained(safe) {
        return 400, Failure(InvalidPath);
      }
      if IsDirectory(entries, safe) {
        // unlink on a directory raises
        return 500, Failure(Unhandled);
      }
      var doc: Records;
      if safe == MetadataName {
        // the document itself was unlinked, so loading it yields {}
        doc := LoadMetadata(None);
      } else {
        entries := Pop(entries, safe);
        doc := md;
      }
      doc := Pop(doc, safe);
      md := doc;
      return 200, Deleted(safe);
    }

    /** `GET /api/files/<filename>/metadata` */
    method ReadMetadata(filename: string) returns (record: Json)
      requires Valid()
      ensures sanitize(filename) in md ==> record == md[sanitize(filename)]
      ensures sanitize(filename) !in md ==> record == EmptyObject
    {
      var doc := md;
      record := Get(doc, sanitize(filename), EmptyObject);
    }

    /** `POST /api/files/<filename>/metadata` */
    method WriteMetadata(filename: string, data: Json) returns (status: nat, body: Body)
      requires Valid()
      modifies this
      ensures Valid() && entries == old(entries)
      ensures !data.JObject? ==> status == 400 && body == Failure(NotAnObject) && md == old(md)
      ensures data.JObject? ==>
        status == 200 && body == MetadataUpdated(sanitize(filename)) &&
        md == old(md)[sanitize(filename) := data]
    {
      var safe := sanitize(filename);
      var doc := md;
      if !data.JObject? {
        return 400, Failure(NotAnObject);
      }
      doc := doc[safe := data];
      md := doc;
      return 200, MetadataUpdated(safe);
    }
  }

  /** Writing an object record and reading it back yields that object, `{}` included. */
  method MetadataRoundTrip(d: Drive, filename: string, fields: map<string, Json>) returns (record: Json)
    requires d.Valid()
    modifies d
    ensures d.Valid() && record == JObject(fields)
  {
    var status, body := d.WriteMetadata(filename, JObject(fields));
    record := d.ReadMetadata(filename);
  }

  /** A successful upload stores exactly the uploaded bytes, which download then hands out. */
  method UploadThenDownload(d: Drive, requestLength: nat, f: FilePart, now: nat) returns (uploaded: nat, downloaded: nat)
    requires d.Valid()
    modifies d
    ensures d.Valid()
    ensures uploaded == 201 && d.sanitize(f.filename) != MetadataName ==>
      var safe := d.sanitize(f.filename);
      && safe in d.entries && d.entries[safe] == File(f.content, now)
      && downloaded == (if d.Contained(safe) then 200 else 400)
  {
    var body;
    uploaded, body := d.UploadFile(requestLength, Some(f), now);
    downloaded, body := d.DownloadFile(f.filename);
  }

  /** After a file is deleted, download answers 404 and its metadata reads as `{}`. */
  method DeleteThenFetch(d: Drive, filename: string) returns (deleted: nat, downloaded: nat, record: Json)
    requires d.Valid()
    modifies d
    ensures d.Valid()
    ensures deleted == 200 && d.sanitize(filename) != MetadataName ==>
      downloaded == 404 && record == EmptyObject
  {
    var body;
    deleted, body := d.DeleteFile(filename);
    downloaded, body := d.DownloadFile(filename);
    record := d.ReadMetadata(filename);
  }
}
