/**
  What the two service variants share: the storage directory as a map from
  name to directory entry, the metadata document as a map from name to JSON
  value, the names of the routes' replies, and the listing route
  (`file_info` joined with the metadata and sorted by lower-cased name).
 */
module Storage {
  import opened Options
  import opened Json
  import opened Dicts
  import opened TextOrder

  type Bytes = seq<bv8>

  /** An entry of the storage directory other than the metadata document. */
  datatype Node =
    | File(content: Bytes, mtime: nat)
    | Directory

  /** The regular files and sub-directories of the storage directory, by name. */
  type Entries = map<string, Node>

  /** The metadata document: every known name with its record. */
  type Records = map<string, Json>

  /** The name of the metadata document inside the storage directory. */
  const MetadataName: string := "metadata.json"

  /** The path separator `os.sep`. */
  const Sep: char := '/'

  /** `Path(dir) / name`: an empty name denotes the directory itself. */
  function Join(dir: string, name: string): string {
    if name == "" then dir else dir + [Sep] + name
  }

  /**
    `load_metadata()`: the document as last saved, or `{}` when it is
    absent or does not decode as JSON (the `except Exception` fallback).
   */
  function LoadMetadata(document: Option<Records>): Records {
    document.GetOr(map[])
  }

  /**
    `json.loads` of the metadata document found JSON that is not an object,
    so the dictionary methods the routes call on it raise.
   */
  predicate IsNonObject(decoded: Option<Json>) {
    decoded.Some? && !decoded.value.JObject?
  }

  /** The records of a decoded document that is an object; None when it did not decode. */
  function ObjectOf(decoded: Option<Json>): Option<Records> {
    if decoded.Some? && decoded.value.JObject? then Some(decoded.value.fields) else None
  }

  /**
    What `iterdir` can yield besides the document: no empty name, no name
    with a separator, and never the document itself.
   */
  predicate WellFormedEntries(entries: Entries) {
    && MetadataName !in entries
    && "" !in entries
    && forall n :: n in entries ==> Sep !in n
  }

  /** `(STORAGE_DIR / name).exists()`: the directory itself, the document, or an entry. */
  predicate Exists(entries: Entries, name: string) {
    name == "" || name == MetadataName || name in entries
  }

  /** The path names a directory, so opening it for writing or unlinking it raises. */
  predicate IsDirectory(entries: Entries, name: string) {
    name == "" || (name in entries && entries[name].Directory?)
  }

  /** The multipart `file` field of an upload request. */
  datatype FilePart = FilePart(filename: string, content: Bytes)

  /** Why a route refused a request. */
  datatype Reason =
    | TooLarge       // the request exceeds MAX_CONTENT_LENGTH
    | NoFilePart     // no `file` field in the form
    | EmptyFilename  // the `file` field has an empty filename
    | NotFound       // no such file
    | InvalidPath    // the resolved path is outside the storage directory
    | NotAnObject    // the metadata body is not a JSON object
    | Unhandled      // the handler raised; Flask answers 500

  /** The JSON payload of a route's reply. */
  datatype Body =
    | Uploaded(file: string)
    | Deleted(file: string)
    | MetadataUpdated(file: string)
    | Attachment(file: string)   // handed to `send_from_directory`
    | Failure(reason: Reason)

  /** One element of the listing, as `file_info` builds it. */
  datatype FileInfo = FileInfo(name: string, size: nat, mtime: nat, downloadUrl: string, metadata: Json)

  function DownloadUrl(name: string): string {
    "/api/files/" + name + "/download"
  }

  /** The listing keeps regular files other than the metadata document. */
  predicate Listable(entries: Entries, name: string) {
    name in entries && entries[name].File? && name != MetadataName
  }

  /** `file_info(STORAGE_DIR / name)` with the metadata record defaulting to `{}`. */
  function Info(entries: Entries, md: Records, name: string): FileInfo
    requires name in entries && entries[name].File?
  {
    FileInfo(name, |entries[name].content|, entries[name].mtime, DownloadUrl(name), Get(md, name, EmptyObject))
  }

  function Names(s: seq<FileInfo>): seq<string> {
    if s == [] then [] else [s[0].name] + Names(s[1..])
  }

  /**
    `order` is what `STORAGE_DIR.iterdir()` yields: every entry and the
    metadata document, each exactly once, in an order the model leaves open.
   */
  predicate IsDirectoryOrder(order: seq<string>, entries: Entries) {
    multiset(order) == multiset(entries.Keys + {MetadataName})
  }

  /** The comprehension of `list_files`, in directory order. */
  function Infos(entries: Entries, md: Records, order: seq<string>): (r: seq<FileInfo>)
    ensures forall i :: 0 <= i < |r| ==> Listable(entries, r[i].name) && r[i] == Info(entries, md, r[i].name)
  {
    if order == [] then []
    else
      var rest := Infos(entries, md, order[1..]);
      if Listable(entries, order[0]) then [Info(entries, md, order[0])] + rest else rest
  }

  /** The comprehension keeps a name exactly as often as `iterdir` yields it when it is listable, and never otherwise. */
  lemma {:induction false} InfosNames(entries: Entries, md: Records, order: seq<string>)
    ensures forall n :: multiset(Names(Infos(entries, md, order)))[n] == if Listable(entries, n) then multiset(order)[n] else 0
  {
    if order != [] {
      InfosNames(entries, md, order[1..]);
      var rest := Infos(entries, md, order[1..]);
      assert multiset(order) == multiset{order[0]} + multiset(order[1..]) by {
        assert order == [order[0]] + order[1..];
      }
      if Listable(entries, order[0]) {
        var r := [Info(entries, md, order[0])] + rest;
        assert Names(r) == [order[0]] + Names(rest);
      }
    }
  }

  function SortKey(f: FileInfo): string {
    Lower(f.name)
  }

  /** Non-decreasing by lower-cased name. */
  predicate Sorted(s: seq<FileInfo>) {
    forall i, j :: 0 <= i < j < |s| ==> LexLeq(SortKey(s[i]), SortKey(s[j]))
  }

  /** Places `x` before the first element whose key is not below its own, so equal keys keep their order. */
  function Insert(x: FileInfo, s: seq<FileInfo>): (r: seq<FileInfo>)
    ensures multiset(r) == multiset(s) + multiset{x}
    ensures multiset(Names(r)) == multiset(Names(s)) + multiset{x.name}
  {
    if s == [] || LexLeq(SortKey(x), SortKey(s[0])) then [x] + s
    else
      assert s == [s[0]] + s[1..];
      [s[0]] + Insert(x, s[1..])
  }

  /** Putting an element no greater than the head in front keeps a sorted sequence sorted. */
  lemma PrependSorted(x: FileInfo, s: seq<FileInfo>)
    requires Sorted(s) && s != [] && LexLeq(SortKey(x), SortKey(s[0]))
    ensures Sorted([x] + s)
  {
    var r := [x] + s;
    forall i, j | 0 <= i < j < |r| ensures LexLeq(SortKey(r[i]), SortKey(r[j])) {
      if i == 0 && j > 1 {
        LexLeqTransitive(SortKey(x), SortKey(s[0]), SortKey(s[j - 1]));
      }
    }
  }

  /** Every element of `Insert(x, s)` is `x` or an element of `s`. */
  lemma InsertMember(x: FileInfo, s: seq<FileInfo>, y: FileInfo)
    requires y in Insert(x, s)
    ensures y == x || y in s
  {
    assert y in multiset(Insert(x, s));
  }

  lemma {:induction false} InsertSorted(x: FileInfo, s: seq<FileInfo>)
    requires Sorted(s)
    ensures Sorted(Insert(x, s))
  {
    if s == [] {
    } else if LexLeq(SortKey(x), SortKey(s[0])) {
      PrependSorted(x, s);
    } else {
      LexLeqTotal(SortKey(x), SortKey(s[0]));
      var rest := Insert(x, s[1..]);
      InsertSorted(x, s[1..]);
      var r := [s[0]] + rest;
      assert Insert(x, s) == r;
      forall i, j | 0 <= i < j < |r| ensures LexLeq(SortKey(r[i]), SortKey(r[j])) {
        if i == 0 {
          InsertMember(x, s[1..], rest[j - 1]);
        } else {
          assert r[i] == rest[i - 1] && r[j] == rest[j - 1];
        }
      }
    }
  }

  /** `sorted(files, key=lambda x: x['name'].lower())`, as an insertion sort. */
  function SortByName(s: seq<FileInfo>): (r: seq<FileInfo>)
    ensures Sorted(r)
    ensures multiset(r) == multiset(s)
    ensures multiset(Names(r)) == multiset(Names(s))
  {
    if s == [] then []
    else
      assert s == [s[0]] + s[1..];
      var sorted := SortByName(s[1..]);
      InsertSorted(s[0], sorted);
      Insert(s[0], sorted)
  }

  /**
    The reply of `list_files`: every regular file of the storage directory
    except the metadata document, exactly once, each with its size, mtime,
    download URL and metadata record (`{}` when it has none), ordered by
    lower-cased name.
   */
  function Listing(entries: Entries, md: Records, order: seq<string>): (r: seq<FileInfo>)
    requires IsDirectoryOrder(order, entries)
    ensures forall n :: multiset(Names(r))[n] == if Listable(entries, n) then 1 else 0
    ensures Sorted(r)
    ensures forall i :: 0 <= i < |r| ==> Listable(entries, r[i].name) && r[i] == Info(entries, md, r[i].name)
  {
    var infos := Infos(entries, md, order);
    ListingFacts(entries, md, order, infos);
    SortByName(infos)
  }

  lemma ListingFacts(entries: Entries, md: Records, order: seq<string>, infos: seq<FileInfo>)
    requires IsDirectoryOrder(order, entries)
    requires infos == Infos(entries, md, order)
    ensures var r := SortByName(infos);
      && (forall n :: multiset(Names(r))[n] == if Listable(entries, n) then 1 else 0)
      && (forall i :: 0 <= i < |r| ==> Listable(entries, r[i].name) && r[i] == Info(entries, md, r[i].name))
  {
    var r := SortByName(infos);
    InfosNames(entries, md, order);
    forall n ensures multiset(Names(r))[n] == if Listable(entries, n) then 1 else 0 {
      if Listable(entries, n) {
        assert n in entries.Keys + {MetadataName};
      }
    }
    forall i | 0 <= i < |r| ensures Listable(entries, r[i].name) && r[i] == Info(entries, md, r[i].name) {
      assert r[i] in multiset(r);
      assert r[i] in multiset(infos);
      var k :| 0 <= k < |infos| && infos[k] == r[i];
    }
  }
}
