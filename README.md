# S3 file gateway: the object-key naming convention

The gateway stores uploaded files in one S3 bucket. The bucket's key space is
flat. "Folders" exist only as a naming convention:

- a top-level upload gets the key `<guid>-<original file name>`;
- a folder named `f` is the prefix `TrimEnd(f, '/') + "/"`, so `reports`,
  `reports/` and `reports///` are the same folder;
- creating a folder writes a zero-byte marker object at the bare prefix;
- an upload into a folder gets the key `<prefix><guid><extension>`, which keeps
  the original file's extension and drops its base name (unlike the
  top-level key, which keeps the whole name; the model keeps this asymmetry);
- listing a folder asks the backend for every key that starts with the prefix,
  then drops each key that ends in `/`.

The model is three Dafny modules of pure functions and lemmas:

- `Strings` (strings.dfy) holds `TrimEnd`, `EndsWith` and the subsequence
  relation.
- `Bucket` (bucket.dfy) describes the storage backend as the naming
  convention relies on it. A bucket is its sequence of distinct keys. `Put`
  writes a key. `ListObjects` lists the keys under a prefix.
- `S3Service` (s3_service.dfy) holds the key derivations, the listing filter
  and the folder operations over a bucket.

The random identifier is a parameter `id`. Every lemma that needs it requires
`IsGuidText(id)`: 36 characters, lower-case hex digits in groups 8-4-4-4-12
separated by `-`. So the identifier is never empty and never holds `/`. The
file-name extension is a parameter `ext`. The lemmas require
`IsExtension(ext)`: either empty, or a `.` followed by characters other than
`/`.

Two consequences of the listing code are easy to miss:

- The filter drops every key that ends in `/`, not only the folder's own
  marker, so the markers of nested folders are dropped too.
- The listing is recursive, because the request sets no delimiter. A folder's
  listing therefore also holds the files of its sub-folders
  (`FolderUploadKeyUnder`).

## Model

| member | source | states |
|---|---|---|
| Strings.TrimEnd | Service/S3Service.cs:87 | `TrimEnd('/')` returns a prefix of its input that does not end in the trimmed character, and everything it removed is that character |
| Strings.TrimEndUnique | Service/S3Service.cs:87 | those three properties determine the trimmed string uniquely (a reference definition of `TrimEnd`) |
| Strings.EndsWithChar | Service/S3Service.cs:130 | `key.EndsWith("/")` holds exactly when the key is non-empty and its last character is `/` |
| S3Service.GuidTextHasNoSlash | Service/S3Service.cs:101 | the text of a GUID is non-empty and contains no `/` |
| S3Service.FolderPrefix | Service/S3Service.cs:87 | the folder prefix ends in `/` and has exactly one trailing `/`; the part before it is a prefix of the folder name, and after it the name holds only `/` |
| S3Service.FolderPrefixPreimage | Service/S3Service.cs:87 | a canonical prefix `p` is the prefix of exactly those names that are `p` minus its `/`, followed by any number of `/` (both directions) |
| S3Service.FolderPrefixOfPrefix | Service/S3Service.cs:87 | a name that is already a canonical prefix maps to itself |
| S3Service.FolderPrefixIdempotent | Service/S3Service.cs:87 | deriving the prefix of a prefix gives the same prefix |
| S3Service.FolderPrefixIgnoresTrailingSlash | Service/S3Service.cs:87 | `f + "/"` and `f` give the same prefix, so creating, uploading into and listing `reports` and `reports/` all use one prefix |
| S3Service.FolderPrefixIsRoot | Service/S3Service.cs:87 | the prefix is `"/"` exactly when the name consists only of `/` (for example `""` or `"///"`) |
| S3Service.UploadKey | Service/S3Service.cs:31 | a top-level key starts with `id + "-"`, ends with the whole original file name, and has no other characters |
| S3Service.UploadKeyInjective | Service/S3Service.cs:31 | for identifiers of equal length, two top-level keys are equal exactly when both their identifiers and their file names are equal |
| S3Service.UploadKeyIsTopLevel | Service/S3Service.cs:31 | with a GUID identifier and a file name without `/`, the key lies under no folder prefix and does not end in `/` |
| S3Service.FolderUploadKey | Service/S3Service.cs:101 | a folder-upload key starts with the folder prefix that the listing queries, ends with the extension, and holds exactly the identifier between the two, so the key is prefix, identifier and extension and nothing else (the base name is dropped) |
| S3Service.FolderUploadKeyIsFile | Service/S3Service.cs:101 | with a GUID identifier and a real extension, nothing after the folder prefix is `/`, so the key does not end in `/` and the listing filter keeps it |
| S3Service.FolderUploadKeyUnder | Service/S3Service.cs:101 | a key uploaded into folder `f` lies under the prefix of folder `g` exactly when `g`'s prefix is a prefix of `f`'s prefix: `f` itself or an ancestor of `f`, never a sibling that merely shares characters |
| S3Service.FolderUploadKeyInjective | Service/S3Service.cs:101 | two folder-upload keys are equal exactly when their folder prefixes, identifiers and extensions are all equal |
| S3Service.UploadKeysDisjoint | Service/S3Service.cs:31 | a top-level key whose file name has no `/` never equals a folder-upload key |
| S3Service.UploadKeyWithTrailingSlashIsHidden | Service/S3Service.cs:31 | a top-level upload whose client-supplied file name ends in `/` gets a key ending in `/`, which no folder listing ever returns |
| S3Service.UploadKeyCanEqualFolderUploadKey | Service/S3Service.cs:31 | a client-supplied file name holding `/` can make a top-level key equal to a folder-upload key: `<guid1>-x/<guid2><ext>` is also the key for folder `<guid1>-x` |
| S3Service.ListFilter | Service/S3Service.cs:128-131 | the filter keeps the input's order (it returns a subsequence); a key is in the result exactly when it is in the input and does not end in `/` |
| S3Service.ListFilterCounts | Service/S3Service.cs:128-131 | each key ending in `/` occurs in the result zero times; every other key occurs exactly as often as in the input, so duplicates are kept |
| S3Service.ListFilterAppend | Service/S3Service.cs:128-131 | filtering a concatenation is the concatenation of the filtered parts |
| S3Service.ListFilterKeepsFiles | Service/S3Service.cs:128-131 | a list with no key ending in `/` passes the filter unchanged |
| S3Service.ListFilterIdempotent | Service/S3Service.cs:128-131 | filtering twice is the same as filtering once |
| S3Service.ListFilterDropsMarkers | Service/S3Service.cs:128-131 | a listing made only of folder markers filters to `[]` |
| S3Service.ListFiles | Service/S3Service.cs:119-131 | a folder listing holds exactly the bucket's keys that start with the folder prefix and do not end in `/`; it never holds the folder's own marker |
| S3Service.CreateFolder | Service/S3Service.cs:85-96 | creating a folder adds the marker key at the folder prefix and adds nothing else |
| S3Service.CreateFolderListsNothing | Service/S3Service.cs:85-96 | creating a folder leaves every folder listing unchanged |
| S3Service.UploadToFolderIsListed | Service/S3Service.cs:99-116 | a file uploaded into a folder appears in that folder's listing |
| S3Service.CreateUploadList | Service/S3Service.cs:119-131 | on a folder with nothing under its prefix, create-folder followed by one upload gives a listing of exactly that upload's key |
| Bucket.Put | Service/S3Service.cs:96 | a write keeps every existing key at its position, adds the written key, and adds nothing else; keys stay distinct |
| Bucket.ListObjects | Service/S3Service.cs:121-127 | a prefix listing holds exactly the bucket's keys that start with the prefix, in bucket order |
| Bucket.ListObjectsCounts | Service/S3Service.cs:121-127 | a key under the prefix is listed as often as the bucket holds it, any other key never |
| Bucket.ListObjectsAppend | Service/S3Service.cs:127 | listing a concatenated bucket gives the concatenation of the two parts' listings |
| Bucket.ListObjectsNone | Service/S3Service.cs:127 | a bucket with no key under the prefix gives an empty listing |
| Bucket.ListObjectsPut | Service/S3Service.cs:96 | after a write, the listing gains the written key at its end exactly when the key is new and lies under the prefix; otherwise the listing is unchanged |

## Left out

- The calls into the AWS SDK are not modelled: `PutObjectAsync`, `GetObjectAsync`, `DeleteObjectAsync`, `ListObjectsV2Async` and `GetPreSignedURL`. They are network I/O into a library outside this model. The `Bucket` module models only the key-level behaviour that the naming convention depends on.
- `DownloadFileAsync` and `DeleteFileAsync` pass the caller's key to the backend unchanged. They derive no key, so there is nothing to model.
- `GetPreSignedUrl` is not modelled. Its expiry depends on the wall clock and a `double` duration, and the signing happens inside the SDK.
- The bucket's objects are modelled by key only. Payloads and content types are not modelled, so the claim that a download returns the uploaded bytes is not modelled either.
- Bucket.ListObjects: returns keys in the bucket sequence's order. The real backend returns them in lexicographic order, one page of at most 1000 keys, and the code reads only that first page. The model neither orders nor truncates.
- The service constructor, the client configuration and the dependency-injection setup in Program.cs are left out. They are configuration only.
- Copying uploads into a `MemoryStream` and resetting `Position` are left out. They are stream I/O.
- GUID generation and the uniqueness of GUIDs are left out. The identifier is a parameter, so uniqueness appears only as injectivity: distinct identifiers give distinct keys.
- `Path.GetExtension` is left out. Its result enters the model only through the `IsExtension` precondition.
- S3Service.ListFilter: `EndsWith("/")` with a string argument compares by the current culture in .NET. The model compares characters one by one, so keys that end in culture-ignorable characters after a `/` are not modelled.
- A `null` folder name makes `TrimEnd` throw. Strings in the model are never null.
- Controllers/FileController.cs is not part of this model. It does HTTP routing, returns 400 for an empty payload, and maps exceptions to status 500.
- async/await and concurrency are left out. The gateway holds no shared mutable state.
