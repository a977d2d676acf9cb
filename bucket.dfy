/**
  The storage backend as the key-naming convention sees it: a flat bucket of
  object keys. Only keys are modelled, not payloads: a write at a key that is
  already present replaces the object in place, and a listing by prefix
  returns the keys that start with that prefix.
 */
module Bucket {
  import opened Strings

  /** No key occurs twice: a bucket holds one object per key. */
  predicate Distinct(keys: seq<string>) {
    forall i, j :: 0 <= i < j < |keys| ==> keys[i] != keys[j]
  }

  /**
    Writing an object at `key`: afterwards `key` is present, every key that
    was there still is, at the same position, and nothing else was added.
   */
  function Put(bucket: seq<string>, key: string): (after: seq<string>)
    ensures bucket <= after
    ensures forall k :: k in after <==> k in bucket || k == key
    ensures Distinct(bucket) ==> Distinct(after)
  {
    if key in bucket then bucket else bucket + [key]
  }

  /**
    Listing by prefix: exactly the keys of the bucket that start with
    `prefix`, in the bucket's order.
   */
  function ListObjects(bucket: seq<string>, prefix: string): (listed: seq<string>)
    ensures forall k :: k in listed <==> k in bucket && prefix <= k
    ensures IsSubsequence(listed, bucket)
    decreases |bucket|
  {
    if bucket == [] then []
    else
      var rest := ListObjects(bucket[1..], prefix);
      if prefix <= bucket[0] then [bucket[0]] + rest else rest
  }

  /**
    A key under `prefix` is listed as often as the bucket holds it, any
    other key not at all.
   */
  lemma {:induction false} ListObjectsCounts(bucket: seq<string>, prefix: string, k: string)
    ensures multiset(ListObjects(bucket, prefix))[k] == if prefix <= k then multiset(bucket)[k] else 0
    decreases |bucket|
  {
    if bucket != [] {
      assert bucket == [bucket[0]] + bucket[1..];
      ListObjectsCounts(bucket[1..], prefix, k);
    }
  }

  /** Listing distributes over a bucket split in two. */
  lemma {:induction false} ListObjectsAppend(a: seq<string>, b: seq<string>, prefix: string)
    ensures ListObjects(a + b, prefix) == ListObjects(a, prefix) + ListObjects(b, prefix)
    decreases |a|
  {
    if a != [] {
      assert (a + b)[1..] == a[1..] + b;
      ListObjectsAppend(a[1..], b, prefix);
    } else {
      assert a + b == b;
    }
  }

  /** A bucket with no key under `prefix` lists nothing for it. */
  lemma {:induction false} ListObjectsNone(bucket: seq<string>, prefix: string)
    requires forall k :: k in bucket ==> !(prefix <= k)
    ensures ListObjects(bucket, prefix) == []
    decreases |bucket|
  {
    if bucket != [] {
      assert bucket[0] in bucket;
      forall k | k in bucket[1..] ensures k in bucket {
        assert bucket == [bucket[0]] + bucket[1..];
      }
      ListObjectsNone(bucket[1..], prefix);
    }
  }

  /**
    A write shows up in a listing exactly when the key is new and matches
    the prefix; it then comes last.
   */
  lemma ListObjectsPut(bucket: seq<string>, key: string, prefix: string)
    ensures ListObjects(Put(bucket, key), prefix)
         == if key !in bucket && prefix <= key then ListObjects(bucket, prefix) + [key]
            else ListObjects(bucket, prefix)
  {
    if key !in bucket {
      ListObjectsAppend(bucket, [key], prefix);
    }
  }
}
