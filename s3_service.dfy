/**
  The object-key naming convention of the S3 file gateway.

  The bucket is a flat key space. "Folders" are a naming convention laid over
  it: a folder is the prefix `<name>/`, a file uploaded into it gets the key
  `<name>/<guid><extension>`, a folder is made visible by a zero-byte marker
  object at the bare prefix, and a folder listing asks the backend for every
  key under the prefix and drops the keys that end in `/`. A top-level upload
  gets the key `<guid>-<file name>`.

  The random identifier and the file's extension are parameters: the
  identifier is any string in the textual form of a GUID, the extension is
  what a file-name extension can be.
 */
module S3Service {
  import opened Strings
  import opened Bucket

  /* ---------- Parameters standing for the framework calls ---------- */

  predicate IsHexDigit(ch: char) {
    '0' <= ch <= '9' || 'a' <= ch <= 'f'
  }

  /**
    The default text of a GUID: 32 lower-case hex digits in groups of
    8-4-4-4-12 separated by `-`, 36 characters in all.
   */
  predicate IsGuidText(id: string) {
    |id| == 36 &&
    forall i :: 0 <= i < |id| ==>
      if i == 8 || i == 13 || i == 18 || i == 23 then id[i] == '-' else IsHexDigit(id[i])
  }

  /** A file-name extension: empty, or a `.` followed by characters that are not `/`. */
  predicate IsExtension(ext: string) {
    ext == [] || (ext[0] == '.' && '/' !in ext)
  }

  /** A GUID's text is never empty and never contains `/`. */
  lemma GuidTextHasNoSlash(id: string)
    requires IsGuidText(id)
    ensures |id| > 0 && '/' !in id
  {
  }

  /* ---------- Folder prefix ---------- */

  /** A canonical folder prefix: it ends in `/`, and in one `/` only. */
  predicate IsFolderPrefix(p: string) {
    |p| > 0 && p[|p| - 1] == '/' && (|p| == 1 || p[|p| - 2] != '/')
  }

  /**
    The folder prefix for `folderName`: every trailing `/` is removed and one
    is appended. What precedes the final `/` is a prefix of `folderName`,
    and `folderName` continues after it with `/` characters only.
   */
  function FolderPrefix(folderName: string): (prefix: string)
    ensures IsFolderPrefix(prefix)
    ensures prefix[..|prefix| - 1] <= folderName
    ensures AllFrom(folderName, |prefix| - 1, '/')
  {
    TrimEnd(folderName, '/') + "/"
  }

  /**
    The folder names with a given canonical prefix `p` are exactly `p`
    without its final `/`, followed by any number of `/` (zero included).
   */
  lemma FolderPrefixPreimage(folderName: string, p: string)
    requires IsFolderPrefix(p)
    ensures FolderPrefix(folderName) == p <==>
              p[..|p| - 1] <= folderName && AllFrom(folderName, |p| - 1, '/')
  {
  }

  /** A canonical prefix is left as it is. */
  lemma FolderPrefixOfPrefix(p: string)
    requires IsFolderPrefix(p)
    ensures FolderPrefix(p) == p
  {
  }

  /** Deriving the prefix twice gives the same prefix as deriving it once. */
  lemma FolderPrefixIdempotent(folderName: string)
    ensures FolderPrefix(FolderPrefix(folderName)) == FolderPrefix(folderName)
  {
  }

  /**
    A trailing `/` on the folder name makes no difference, so `reports` and
    `reports/` name the same folder when it is created, uploaded into and
    listed.
   */
  lemma FolderPrefixIgnoresTrailingSlash(folderName: string)
    ensures FolderPrefix(folderName + "/") == FolderPrefix(folderName)
  {
  }

  /**
    The prefix is the bare `/` exactly when the folder name is made of `/`
    only, as `""` and `"///"` are.
   */
  lemma FolderPrefixIsRoot(folderName: string)
    ensures FolderPrefix(folderName) == "/" <==> AllFrom(folderName, 0, '/')
  {
  }

  /* ---------- Object keys ---------- */

  /**
    The key of a top-level upload: the identifier, a `-`, then the original
    file name in full.
   */
  function UploadKey(id: string, fileName: string): (key: string)
    ensures id + "-" <= key
    ensures EndsWith(key, fileName)
    ensures |key| == |id| + 1 + |fileName|
  {
    id + "-" + fileName
  }

  /**
    For identifiers of one length (all GUID texts have 36 characters), two
    top-level keys are equal exactly when identifier and file name both are:
    distinct identifiers give distinct keys.
   */
  lemma UploadKeyInjective(id1: string, name1: string, id2: string, name2: string)
    requires |id1| == |id2|
    ensures UploadKey(id1, name1) == UploadKey(id2, name2) <==> id1 == id2 && name1 == name2
  {
    if UploadKey(id1, name1) == UploadKey(id2, name2) {
      var k := UploadKey(id1, name1);
      assert id1 == k[..|id1|] == id2;
      assert name1 == k[|id1| + 1..] == name2;
    }
  }

  /**
    A top-level upload whose file name has no `/` stays at the top level: its
    key is under no folder prefix and does not end in `/`.
   */
  lemma UploadKeyIsTopLevel(id: string, fileName: string, folderName: string)
    requires IsGuidText(id)
    requires '/' !in fileName
    ensures !(FolderPrefix(folderName) <= UploadKey(id, fileName))
    ensures !EndsWith(UploadKey(id, fileName), "/")
  {
  }

  /**
    The key of an upload into a folder: the folder prefix, the identifier,
    then only the extension of the original file name (the base name is
    dropped, unlike the top-level key, which keeps the whole name).
   */
  function FolderUploadKey(folderName: string, id: string, ext: string): (key: string)
    ensures FolderPrefix(folderName) <= key
    ensures EndsWith(key, ext)
    ensures |key| == |FolderPrefix(folderName)| + |id| + |ext|
    ensures key[|FolderPrefix(folderName)|..|key| - |ext|] == id
  {
    FolderPrefix(folderName) + id + ext
  }

  /**
    With a GUID identifier and a real extension, everything after the folder
    prefix is free of `/`: the file sits directly in its folder, and its key
    does not end in `/`, so a listing keeps it.
   */
  lemma FolderUploadKeyIsFile(folderName: string, id: string, ext: string)
    requires IsGuidText(id) && IsExtension(ext)
    ensures forall i :: |FolderPrefix(folderName)| <= i < |FolderUploadKey(folderName, id, ext)| ==>
              FolderUploadKey(folderName, id, ext)[i] != '/'
    ensures !EndsWith(FolderUploadKey(folderName, id, ext), "/")
  {
  }

  /**
    A file uploaded into `folderName` is under the prefix of folder `other`
    exactly when `other`'s prefix is a prefix of `folderName`'s: the folder
    itself or one of its ancestors, never a sibling such as `rep/` for
    `reports/`.
   */
  lemma FolderUploadKeyUnder(folderName: string, id: string, ext: string, other: string)
    requires IsGuidText(id) && IsExtension(ext)
    ensures FolderPrefix(other) <= FolderUploadKey(folderName, id, ext) <==>
              FolderPrefix(other) <= FolderPrefix(folderName)
  {
  }

  /**
    For identifiers of one length, two folder-upload keys are equal exactly
    when folder prefix, identifier and extension all are.
   */
  lemma FolderUploadKeyInjective(f1: string, id1: string, ext1: string, f2: string, id2: string, ext2: string)
    requires IsGuidText(id1) && IsExtension(ext1)
    requires IsGuidText(id2) && IsExtension(ext2)
    ensures FolderUploadKey(f1, id1, ext1) == FolderUploadKey(f2, id2, ext2) <==>
              FolderPrefix(f1) == FolderPrefix(f2) && id1 == id2 && ext1 == ext2
  {
  }

  /**
    A top-level key (file name without `/`) never collides with a key
    inside a folder, whatever the identifiers.
   */
  lemma UploadKeysDisjoint(id1: string, fileName: string, folderName: string, id2: string, ext: string)
    requires IsGuidText(id1) && '/' !in fileName
    ensures UploadKey(id1, fileName) != FolderUploadKey(folderName, id2, ext)
  {
  }

  /**
    A file name that ends in `/` gives a top-level key that ends in `/`:
    every folder listing drops that key, whatever is in the bucket.
   */
  lemma UploadKeyWithTrailingSlashIsHidden(id: string, fileName: string, bucket: seq<string>, folderName: string)
    requires EndsWith(fileName, "/")
    ensures EndsWith(UploadKey(id, fileName), "/")
    ensures UploadKey(id, fileName) !in ListFiles(bucket, folderName)
  {
  }

  /**
    A file name that holds `/` can make a top-level key equal to a key inside
    a folder: `x/<guid2><ext>` uploaded at the top level under `guid1` gives
    the same key as uploading into folder `<guid1>-x` under `guid2`.
   */
  lemma UploadKeyCanEqualFolderUploadKey(id1: string, x: string, id2: string, ext: string)
    requires x == [] || x[|x| - 1] != '/'
    ensures UploadKey(id1, x + "/" + id2 + ext) == FolderUploadKey(id1 + "-" + x, id2, ext)
  {
  }

  /* ---------- Listing ---------- */

  /**
    The listing filter: keeps, in order, the keys that do not end in `/`.
    The result is a subsequence of the input holding exactly its keys that
    do not end in `/`.
   */
  function ListFilter(keys: seq<string>): (files: seq<string>)
    ensures IsSubsequence(files, keys)
    ensures forall k :: k in files <==> k in keys && !EndsWith(k, "/")
    decreases |keys|
  {
    if keys == [] then []
    else
      var rest := ListFilter(keys[1..]);
      if EndsWith(keys[0], "/") then rest else [keys[0]] + rest
  }

  /**
    The filter keeps duplicates: a key that does not end in `/` occurs in the
    result as often as in the input, and a key that does end in `/` not at all.
   */
  lemma {:induction false} ListFilterCounts(keys: seq<string>, k: string)
    ensures multiset(ListFilter(keys))[k] == if EndsWith(k, "/") then 0 else multiset(keys)[k]
    decreases |keys|
  {
    if keys != [] {
      assert keys == [keys[0]] + keys[1..];
      ListFilterCounts(keys[1..], k);
    }
  }

  /** Filtering a listing split in two filters each part. */
  lemma {:induction false} ListFilterAppend(a: seq<string>, b: seq<string>)
    ensures ListFilter(a + b) == ListFilter(a) + ListFilter(b)
    decreases |a|
  {
    if a != [] {
      assert (a + b)[1..] == a[1..] + b;
      ListFilterAppend(a[1..], b);
    } else {
      assert a + b == b;
    }
  }

  /** Keys none of which ends in `/` pass the filter unchanged. */
  lemma {:induction false} ListFilterKeepsFiles(keys: seq<string>)
    requires forall k :: k in keys ==> !EndsWith(k, "/")
    ensures ListFilter(keys) == keys
    decreases |keys|
  {
    if keys != [] {
      assert keys[0] in keys;
      ListFilterKeepsFiles(keys[1..]);
    }
  }

  /** Filtering twice is filtering once. */
  lemma ListFilterIdempotent(keys: seq<string>)
    ensures ListFilter(ListFilter(keys)) == ListFilter(keys)
  {
  }

  /** A listing that holds only folder markers filters to nothing. */
  lemma ListFilterDropsMarkers(keys: seq<string>)
    requires forall k :: k in keys ==> EndsWith(k, "/")
    ensures ListFilter(keys) == []
  {
  }

  /**
    A folder listing: the backend is asked for the keys under the folder's
    prefix, and the filter drops those ending in `/`. The result is exactly
    the bucket's non-marker keys under the prefix, never the marker itself.
   */
  function ListFiles(bucket: seq<string>, folderName: string): (files: seq<string>)
    ensures forall k :: k in files <==>
              k in bucket && FolderPrefix(folderName) <= k && !EndsWith(k, "/")
    ensures FolderPrefix(folderName) !in files
  {
    var p := FolderPrefix(folderName);
    EndsWithChar(p, '/');
    ListFilter(ListObjects(bucket, p))
  }

  /* ---------- The operations, on the bucket ---------- */

  /** Creating a folder writes the zero-byte marker at the folder prefix. */
  function CreateFolder(bucket: seq<string>, folderName: string): (after: seq<string>)
    ensures FolderPrefix(folderName) in after
    ensures forall k :: k in after <==> k in bucket || k == FolderPrefix(folderName)
  {
    Put(bucket, FolderPrefix(folderName))
  }

  /** Creating a folder changes the listing of no folder. */
  lemma CreateFolderListsNothing(bucket: seq<string>, folderName: string, other: string)
    ensures ListFiles(CreateFolder(bucket, folderName), other) == ListFiles(bucket, other)
  {
    var p, q := FolderPrefix(folderName), FolderPrefix(other);
    var before := ListObjects(bucket, q);
    ListObjectsPut(bucket, p, q);
    if p !in bucket && q <= p {
      assert ListObjects(CreateFolder(bucket, folderName), q) == before + [p];
      EndsWithChar(p, '/');
      ListFilterAppend(before, [p]);
      assert ListFilter([p]) == [] by {
        assert [p][1..] == [];
      }
    }
  }

  /**
    Uploading into a folder writes the object at a fresh key under the
    folder prefix; the file then appears in that folder's listing.
   */
  lemma UploadToFolderIsListed(bucket: seq<string>, folderName: string, id: string, ext: string)
    requires IsGuidText(id) && IsExtension(ext)
    ensures FolderUploadKey(folderName, id, ext) in
              ListFiles(Put(bucket, FolderUploadKey(folderName, id, ext)), folderName)
  {
  }

  /**
    Create a folder, upload one file into it, list it: when the bucket held
    nothing under the folder's prefix before, the listing is exactly the
    uploaded file's key, which does not end in `/` and keeps the extension.
   */
  lemma CreateUploadList(bucket: seq<string>, folderName: string, id: string, ext: string)
    requires IsGuidText(id) && IsExtension(ext)
    requires forall k :: k in bucket ==> !(FolderPrefix(folderName) <= k)
    ensures ListFiles(Put(CreateFolder(bucket, folderName), FolderUploadKey(folderName, id, ext)), folderName)
         == [FolderUploadKey(folderName, id, ext)]
  {
    var p := FolderPrefix(folderName);
    var key := FolderUploadKey(folderName, id, ext);
    var withMarker := CreateFolder(bucket, folderName);
    ListObjectsNone(bucket, p);
    ListObjectsPut(bucket, p, p);
    assert ListObjects(withMarker, p) == [p];
    GuidTextHasNoSlash(id);
    assert key !in withMarker by {
      assert key != p;
      assert key !in bucket;
    }
    ListObjectsPut(withMarker, key, p);
    assert ListObjects(Put(withMarker, key), p) == [p, key];
    FolderUploadKeyIsFile(folderName, id, ext);
    EndsWithChar(p, '/');
    assert ListFilter([p, key]) == [key] by {
      assert [p, key][1..] == [key];
      assert [key][1..] == [];
    }
  }
}
