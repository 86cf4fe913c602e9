/**
 * The records the agents pass around as Python dictionaries. A key that may be missing
 * from the dictionary is an `Option` field.
 */
module Records {
  import opened Wrappers

  /** One replication destination as configured: every key is optional in the dictionary. */
  datatype Destination = Destination(
    region: Option<string>,
    bucket: Option<string>,
    kmsKeyArn: Option<string>,
    storageClass: Option<string>,
    backup: Option<bool>)

  /**
   * A DynamoDB attribute value: a single-key dictionary whose key is the type tag.
   * Numbers are carried as the integer their decimal string denotes.
   */
  datatype AttrValue =
    | S(s: string)
    | N(n: int)
    | BOOL(b: bool)
    | NULL
    | L(items: seq<AttrValue>)
    | M(fields: map<string, AttrValue>)

  /**
   * Per-object metadata, as the source builds it and as manifest entries carry it:
   * source_bucket, source_prefix, object_name, relative_key, full_key, creation_time,
   * etag, size, storage_class and tags (a list of single-entry dictionaries).
   */
  datatype ObjectRecord = ObjectRecord(
    sourceBucket: Option<string>,
    sourcePrefix: Option<string>,
    objectName: Option<string>,
    relativeKey: Option<string>,
    fullKey: Option<string>,
    creationTime: Option<string>,
    etag: Option<string>,
    size: Option<int>,
    storageClass: Option<string>,
    tags: Option<seq<map<string, string>>>)

  /** The empty dictionary `{}` returned on failure. */
  const EmptyRecord := ObjectRecord(None, None, None, None, None, None, None, None, None, None)

  /** A manifest document: the 'targets' and 'objects' keys, each possibly absent. */
  datatype Manifest = Manifest(targets: Option<seq<Destination>>, objects: Option<seq<ObjectRecord>>)

  /** Python truthiness of an optional string: present and non-empty. */
  predicate Truthy(s: Option<string>) {
    s.Some? && s.value != ""
  }
}
