# umDrive storage and metadata, modelled in Dafny

umDrive is a small Flask file service. Clients list, upload, download and
delete the files of one storage directory. They also read and write a JSON
metadata record per file. All records live in a single document,
`metadata.json`, inside that same directory. The repository holds two
near-identical copies of the service:

- `umdrive/umDrive_Teste.py` stores under `storage` and accepts 100 MB requests.
  Its containment check needs the separator after the root. Its delete route
  checks containment.
- `umdrive/umdrive.py` stores under `/app/storage` and accepts 1000 MB requests.
  Its containment check is a bare string-prefix test. Its delete route does
  no containment check.

This project models the state behind the routes and the decisions each route
makes. Each copy is a class `Drive` in its own module (`UmDriveTeste`,
`UmDrive`). The class has two fields:

- `entries`: the storage directory, a map from name to a regular file
  (content bytes and mtime) or a real sub-directory (symbolic links are
  not modelled; see "Left out");
- `md`: the metadata document as `load_metadata` reads it, a map from name to
  JSON value.

The metadata document itself is never an entry (`Valid()`). All the
routes that can reach it under its own name are still modelled:

- uploading a file named `metadata.json` overwrites the document, which is
  then read back from the uploaded bytes: `{}` if they do not decode as
  JSON, the object itself if they decode to an object, and in both cases it
  gets `setdefault("metadata.json", {})`; bytes that decode to JSON other
  than an object make `setdefault` raise, so the route answers 500;
- deleting `metadata.json` unlinks the document, so the following load reads
  `{}` and the saved document is empty;
- downloading it is handed to `send_from_directory` like any other file.

Three library calls are uninterpreted functions fixed when the `Drive` is
built: `secure_filename` (`sanitize`), `Path.resolve` (`resolve`), and
`json.loads` of bytes written over the document (`readDocument`). Of
`secure_filename` the model assumes one rule, as werkzeug guarantees: its
output never contains `/`. The
routes call `load_metadata`, change the dictionary, then call
`save_metadata`. Each method does the same on a local copy of `md` and
writes it back. An absent or unreadable document reads as `{}`
(`Storage.LoadMetadata`).

Opening a directory for writing or unlinking it raises in Python. This
happens for an upload or delete whose sanitised name is a real
sub-directory, or is empty (the storage directory itself). Flask then
answers 500 and nothing changes; the model returns status 500 with the
same effect.

The shared module `Storage` holds the listing route as functions:
`file_info` (`Info`), the comprehension over `iterdir` (`Infos`), and
`sorted` by lower-cased name (`SortByName`, an insertion sort).
`iterdir`'s order is a parameter that must list every entry and the
document exactly once. `Dicts` holds `get`, `setdefault` and `pop`.
`TextOrder` holds `str.lower` and the string order `sorted` relies on.

## Model

| member | source | states |
|---|---|---|
| `Dicts.SetDefault` | umdrive/umDrive_Teste.py:72 | afterwards the key is present; an existing value is kept (the map is unchanged), a missing one becomes the default; every other key keeps its value |
| `Dicts.Pop` | umdrive/umDrive_Teste.py:98 | the key is removed, every other entry is kept, and popping an absent key changes nothing |
| `TextOrder.LexLeqReflexive` | umdrive/umDrive_Teste.py:57 | the string order used for sorting is reflexive |
| `TextOrder.LexLeqTotal` | umdrive/umDrive_Teste.py:57 | any two sort keys are comparable |
| `TextOrder.LexLeqAntisymmetric` | umdrive/umDrive_Teste.py:57 | two keys each at most the other are equal |
| `TextOrder.LexLeqTransitive` | umdrive/umDrive_Teste.py:57 | the string order is transitive, so sortedness can be stated pairwise |
| `Storage.Infos` | umdrive/umDrive_Teste.py:56 | every element of the comprehension is a regular file other than `metadata.json`, built by `file_info` (the same comprehension is umdrive/umdrive.py:68) |
| `Storage.InfosNames` | umdrive/umDrive_Teste.py:56 | the comprehension keeps exactly the regular files other than `metadata.json`, each as often as `iterdir` yields it, and no other name |
| `Storage.Insert` | umdrive/umDrive_Teste.py:57 | inserting one element adds exactly that element (and its name) to the sequence |
| `Storage.InsertSorted` | umdrive/umDrive_Teste.py:57 | inserting into a sequence sorted by lower-cased name keeps it sorted |
| `Storage.SortByName` | umdrive/umDrive_Teste.py:57 | the result is ordered non-decreasingly by lower-cased name and is a permutation of the input |
| `Storage.Listing` | umdrive/umDrive_Teste.py:38-58 | each regular file except `metadata.json` appears exactly once and nothing else does; the order is by lower-cased name; each entry carries the file's size, mtime, download URL and its metadata record |
| `UmDriveTeste.IsWithinDirectory` | umdrive/umDrive_Teste.py:33-36 | a resolved child is contained iff it is the resolved root or the root followed by the separator and a rest |
| `UmDriveTeste.Drive.Contained` | umdrive/umDrive_Teste.py:83 | the download and delete routes (lines 83 and 94) apply the check to the resolved `STORAGE_DIR / name` against the resolved `STORAGE_DIR` |
| `UmDriveTeste.SiblingIsOutside` | umdrive/umDrive_Teste.py:33-36 | `parent + suffix` is not contained when the suffix does not start with the separator (`/app/storage2` is not under `/app/storage`) |
| `UmDriveTeste.Drive.constructor` | umdrive/umDrive_Teste.py:14-28 | the service starts on the existing directory; its metadata is what `load_metadata` reads: the document when it decodes, `{}` when it is absent or does not decode |
| `UmDriveTeste.Drive.ListFiles` | umdrive/umDrive_Teste.py:38-58 | the reply lists every regular file except `metadata.json` exactly once, sorted by lower-cased name, with size, mtime, URL and the record (`{}` when absent) |
| `UmDriveTeste.Drive.UploadFile` | umdrive/umDrive_Teste.py:61-74 | 413 above the size limit; 400 for a missing `file` field or an empty filename; 500 when the target is a directory, or when bytes uploaded as `metadata.json` decode to JSON that is not an object; in all these nothing changes; otherwise 201, the content replaces the file under the sanitised name, the record is kept or created as `{}`, and every other name is untouched |
| `UmDriveTeste.Drive.DownloadFile` | umdrive/umDrive_Teste.py:77-85 | 404 when the path does not exist; only then 400 when it is not contained; otherwise 200, meaning the sanitised name is handed to `send_from_directory`, whose resolved path is the root or below it |
| `UmDriveTeste.Drive.DeleteFile` | umdrive/umDrive_Teste.py:88-100 | 404 when absent and 400 when not contained, in that order, with nothing changed; on 200 exactly that name leaves the directory and the metadata; deleting `metadata.json` empties the metadata |
| `UmDriveTeste.Drive.ReadMetadata` | umdrive/umDrive_Teste.py:103-109 | the stored record, or `{}` when the name has none |
| `UmDriveTeste.Drive.WriteMetadata` | umdrive/umDrive_Teste.py:103-116 | a non-object body gets 400 and leaves the document unchanged; an object replaces the whole record and answers 200; the directory is untouched |
| `UmDriveTeste.MetadataRoundTrip` | umdrive/umDrive_Teste.py:107-116 | writing an object record and reading it back gives exactly that object, `{}` included |
| `UmDriveTeste.UploadThenDownload` | umdrive/umDrive_Teste.py:61-85 | after a 201 upload the directory holds exactly the uploaded bytes under the sanitised name, and download answers 200 or, when not contained, 400 |
| `UmDriveTeste.DeleteThenFetch` | umdrive/umDrive_Teste.py:88-109 | after a 200 delete of a file other than `metadata.json`, download answers 404 and its metadata reads as `{}` |
| `UmDrive.IsWithinDirectory` | umdrive/umdrive.py:48-49 | a resolved child is contained iff it is the resolved root's spelling followed by any rest, separator or not |
| `UmDrive.Drive.Contained` | umdrive/umdrive.py:88 | the download route applies the prefix check to the resolved `STORAGE_DIR / name` against the resolved `STORAGE_DIR` |
| `UmDrive.SeparatorCheckImpliesPrefixCheck` | umdrive/umdrive.py:48-49 | every path the separator-aware check accepts, the prefix check accepts too |
| `UmDrive.PrefixCheckAdmitsSibling` | umdrive/umdrive.py:48-49 | the prefix check accepts `parent + suffix` for any suffix not starting with the separator, which the separator-aware check rejects |
| `UmDrive.StorageTwoIsInside` | umdrive/umdrive.py:48-49 | `/app/storage2` counts as inside `/app/storage` |
| `UmDrive.Drive.constructor` | umdrive/umdrive.py:18-22 | the service starts on the existing directory; its metadata is what `load_metadata` (umdrive/umdrive.py:39-43) reads: the document when it decodes, `{}` when it is absent or does not decode |
| `UmDrive.Drive.ListFiles` | umdrive/umdrive.py:51-69 | the reply lists every regular file except `metadata.json` exactly once, sorted by lower-cased name, with size, mtime, URL and the record (`{}` when absent) |
| `UmDrive.Drive.UploadFile` | umdrive/umdrive.py:71-81 | as in the other copy, with a 1000 MB limit: 413, 400 and 500 (a directory target, or a non-object `metadata.json` upload) change nothing; 201 overwrites the file and keeps or creates its record, leaving other names untouched |
| `UmDrive.Drive.DownloadFile` | umdrive/umdrive.py:83-89 | 404 when the path does not exist; only then 400 when the prefix check fails; otherwise 200, meaning the name is handed to `send_from_directory`; the state is unchanged |
| `UmDrive.Drive.DeleteFile` | umdrive/umdrive.py:91-97 | 404 with no change when absent; otherwise the file and its record are removed whatever the path resolves to (500 and no change for a directory) |
| `UmDrive.Drive.ReadMetadata` | umdrive/umdrive.py:99-103 | the stored record, or `{}` when the name has none |
| `UmDrive.Drive.WriteMetadata` | umdrive/umdrive.py:99-107 | a non-object body gets 400 and leaves the document unchanged; an object replaces the whole record |
| `UmDrive.DeleteThenFetch` | umdrive/umdrive.py:91-103 | after a 200 delete of a file other than `metadata.json`, download answers 404 and its metadata reads as `{}` |

## Left out

- HTTP: Flask routing, response construction, multipart parsing and the streaming done by `send_from_directory`. Each route returns only a status code and a payload tag. Download stops at the hand-off: its 200 means "handed to `send_from_directory`". When the sanitised name is a sub-directory or empty (the storage directory itself), `send_from_directory` raises NotFound and the client sees 404; the model does not capture that reply.
- `secure_filename`, `Path.resolve` and `json.loads`: werkzeug, filesystem and library code. They are uninterpreted functions. Of `secure_filename` the model assumes that its output never contains `/` (part of `Valid()` and the constructors' precondition). Its answers also match the source only for outputs other than `.` and `..`, which werkzeug never returns: `Storage.Join` treats those two as ordinary absent names, while the filesystem resolves them to the storage directory and its parent. Nothing else about these calls is modelled.
- Symbolic links: `entries` holds only regular files and real sub-directories. A link in the storage directory is the only way the resolved path can leave the storage root, and the model does not capture what the source then does:
  - deleting a link to a directory: `exists()` follows the link and `unlink()` removes only the link, so the source answers 200 and pops the record. In umDrive_Teste.py this happens when the link resolves inside the root. The model can hold that entry only as a `Directory`, so it answers 500 and changes nothing;
  - uploading through a link: `f.save` writes to the link's target, which can lie outside the root because neither copy checks containment on upload. The model records only the new `File` under the name;
  - a dangling link: `iterdir` yields it but `exists()` is false, so download and delete answer 404.
  The containment check's verdict on a link is still captured through the uninterpreted `resolve`.
- `MAX_CONTENT_LENGTH`: Flask enforces it while parsing the request. The model only compares an abstract request length with the limit before anything else, answers 413, and changes nothing.
- The metadata document's serialisation (`json.dumps`, `indent=2`): the model keeps only the decoded map, so it cannot hold a document that is valid JSON but not an object. It also starts only from an object document or an unreadable one.
- UmDriveTeste.Drive.UploadFile: when the bytes uploaded as `metadata.json` decode to JSON that is not an object, the model answers 500 as the source does. But `f.save` has already replaced the document with those bytes. The model keeps the previous metadata instead, because its state holds only object documents. So it does not capture how the source behaves while that document is on disk:
  - listing answers 500 when there is a regular file besides the document, because `file_info` calls `get` on it; with none it answers 200 `[]`;
  - reading metadata answers 500; writing an object record answers 500, while a non-object body still gets 400;
  - uploading any other name saves the file, then `setdefault` raises: a 500 that has changed the directory;
  - deleting any other name unlinks the file, then `pop` raises: a 500 that has changed the directory;
  - uploading an object as `metadata.json` repairs the document, and so does deleting `metadata.json`, which unlinks it before loading and then saves `{}`;
  - download does not load the metadata and is unaffected.
- UmDrive.Drive.UploadFile: the same as for the other copy. A non-object `metadata.json` upload answers 500 and leaves a non-object document behind, which the model cannot hold, so it keeps the previous metadata. The source's behaviour until the document is repaired is as listed above.
- `request.get_json()` failures (wrong content type or malformed JSON), which Flask answers before the handler's own check.
- `stat` sizes and `int(st_mtime)`: the size is the content length and the mtime an opaque natural passed to the upload.
- Storage.SortByName: it is proved sorted and a permutation, but not proved stable (the insertion places an element before the first one whose key is not below its own, so it is stable as written). Python's `sorted` is stable, which only matters between names that are equal once lower-cased, and `iterdir`'s order is left open anyway.
- TextOrder.Lower: lowers ASCII letters only, while Python's `str.lower` follows full Unicode case mapping.
- Concurrency: the source has no locks, so the lost updates possible in the load/modify/save of `metadata.json` are not modelled; each route runs to completion on its own.
- The UI page, the index page, the OpenAPI document and Swagger routes, the Prometheus counter and `/metrics` in `umdrive.py`: static content and a foreign observability library.
