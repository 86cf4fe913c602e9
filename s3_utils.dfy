/**
 * The S3 shapes the deployment builds: the key filter of a source bucket's event
 * notification, and one cross-region replication rule.
 */
module S3Utils {
  import opened Wrappers
  import opened Strings

  // ---------------------------------------------------------------------------
  // Notification key filters
  // ---------------------------------------------------------------------------

  /** `NotificationKeyFilter(prefix=..., suffix=...)`; an argument that is not passed is None. */
  datatype NotificationKeyFilter = NotificationKeyFilter(prefix: Option<string>, suffix: Option<string>)

  /** The prefix as a folder: '/' appended unless it already ends with one. */
  function NormalizedPrefix(prefix: string): (r: string)
    ensures EndsWith(r, "/") && StartsWith(r, prefix)
    ensures |r| == |prefix| || |r| == |prefix| + 1
  {
    if EndsWith(prefix, "/") then prefix else prefix + "/"
  }

  /** Normalising an already normalised prefix changes nothing. */
  lemma NormalizedPrefixIdempotent(prefix: string)
    ensures NormalizedPrefix(NormalizedPrefix(prefix)) == NormalizedPrefix(prefix)
  {
  }

  /** `build_notification_filter` */
  function BuildNotificationFilter(prefix: string, suffix: string): (r: Option<NotificationKeyFilter>)
    ensures r.None? <==> prefix == "" && suffix == ""
    ensures r.Some? ==> (r.value.prefix.Some? <==> prefix != "") && (r.value.suffix.Some? <==> suffix != "")
    ensures r.Some? && prefix != "" ==> r.value.prefix == Some(NormalizedPrefix(prefix))
    ensures r.Some? && suffix != "" ==> r.value.suffix == Some(suffix)
  {
    if prefix == "" && suffix == "" then None
    else
      var prefixArg := if prefix != "" then Some(if EndsWith(prefix, "/") then prefix else prefix + "/") else None;
      var suffixArg := if suffix != "" then Some(suffix) else None;
      if prefixArg.None? && suffixArg.None? then None
      else Some(NotificationKeyFilter(prefixArg, suffixArg))
  }

  /** How S3 applies a notification filter to an object key: no filter lets every key through. */
  predicate Notifies(f: Option<NotificationKeyFilter>, key: string) {
    f.None? ||
    ((f.value.prefix.None? || StartsWith(key, f.value.prefix.value)) &&
     (f.value.suffix.None? || EndsWith(key, f.value.suffix.value)))
  }

  /** A key is inside the folder `prefix`: it starts with the prefix and a '/' follows unless the prefix ends in one. */
  predicate InFolder(key: string, prefix: string) {
    StartsWith(key, prefix) && (EndsWith(prefix, "/") || (|key| > |prefix| && key[|prefix|] == '/'))
  }

  /**
   * The notification a source bucket gets fires exactly for the keys inside the prefix folder
   * (a sibling such as 'logs-old/x' for prefix 'logs' stays out) that end with the suffix.
   */
  lemma NotifiesExactly(prefix: string, suffix: string, key: string)
    ensures Notifies(BuildNotificationFilter(prefix, suffix), key) <==>
            (prefix == "" || InFolder(key, prefix)) && (suffix == "" || EndsWith(key, suffix))
  {
    if prefix != "" {
      var p := NormalizedPrefix(prefix);
      if !EndsWith(prefix, "/") {
        assert p == prefix + "/";
        if StartsWith(key, p) {
          assert key[..|prefix|] == p[..|prefix|];
          assert key[|prefix|] == p[|prefix|];
        }
        if InFolder(key, prefix) {
          assert key[..|p|] == key[..|prefix|] + [key[|prefix|]];
        }
      }
    }
  }

  /** A sibling folder that shares the prefix text is not notified. */
  lemma SiblingFolderNotNotified()
    ensures !Notifies(BuildNotificationFilter("logs", ""), "logs-old/x")
  {
    assert "logs-old/x"[4] != "logs/"[4];
  }

  // ---------------------------------------------------------------------------
  // Replication rules
  // ---------------------------------------------------------------------------

  /** The rule dictionary handed to the replication configuration, with its status fields. */
  datatype ReplicationRuleConfig = ReplicationRuleConfig(
    status: string,
    filterPrefix: string,
    priority: int,
    destinationBucket: string,
    replicaKmsKeyId: string,
    deleteMarkerReplication: string,
    sseKmsEncryptedObjects: string)

  /** The S3 bucket ARN of a bucket. */
  function BucketArn(bucket: string): string {
    "arn:aws:s3:::" + bucket
  }

  /** The ARN of the 'inbound' key alias in the target region and account. */
  function InboundKeyArn(region: string, account: string): string {
    "arn:aws:kms:" + region + ":" + account + ":alias/inbound"
  }

  /** `add_replication_rule` */
  function AddReplicationRule(prefix: string, destination: string, targetRegion: string, accountId: string,
                              rulePriority: int): (rule: ReplicationRuleConfig)
    ensures rule.status == "Enabled" && rule.deleteMarkerReplication == "Enabled" &&
            rule.sseKmsEncryptedObjects == "Enabled"
    ensures rule.filterPrefix == prefix && rule.priority == rulePriority
  {
    var kmsKeyArn := InboundKeyArn(targetRegion, accountId);
    var bucket := BucketArn(destination);
    ReplicationRuleConfig("Enabled", prefix, rulePriority, bucket, kmsKeyArn, "Enabled", "Enabled")
  }

  /** The ':'-separated fields of an ARN: arn, partition, service, region, account, resource. */
  function ArnFields(arn: string): seq<string> {
    Split(arn, ':')
  }

  /** Six separator-free fields joined with ':' split back into those fields. */
  lemma SixFields(f0: string, f1: string, f2: string, f3: string, f4: string, f5: string)
    requires ':' !in f0 && ':' !in f1 && ':' !in f2 && ':' !in f3 && ':' !in f4 && ':' !in f5
    ensures Split(f0 + ":" + f1 + ":" + f2 + ":" + f3 + ":" + f4 + ":" + f5, ':') == [f0, f1, f2, f3, f4, f5]
  {
    var p := [f0, f1, f2, f3, f4, f5];
    assert p[..1] == [f0];
    assert p[..2][..1] == [f0];
    assert p[..3][..2] == p[..2];
    assert p[..4][..3] == p[..3];
    assert p[..5][..4] == p[..4];
    assert p[..6][..5] == p[..5] && p[..6] == p;
    assert Join(p[..2], ':') == f0 + ":" + f1;
    assert Join(p[..3], ':') == f0 + ":" + f1 + ":" + f2;
    assert Join(p[..4], ':') == f0 + ":" + f1 + ":" + f2 + ":" + f3;
    assert Join(p[..5], ':') == f0 + ":" + f1 + ":" + f2 + ":" + f3 + ":" + f4;
    assert Join(p, ':') == f0 + ":" + f1 + ":" + f2 + ":" + f3 + ":" + f4 + ":" + f5;
    SplitJoin(p, ':');
  }

  /** The rule's bucket ARN names the S3 service, no region or account, and the destination bucket. */
  lemma BucketArnFields(destination: string)
    requires ':' !in destination
    ensures ArnFields(BucketArn(destination)) == ["arn", "aws", "s3", "", "", destination]
  {
    assert BucketArn(destination) == "arn" + ":" + "aws" + ":" + "s3" + ":" + "" + ":" + "" + ":" + destination;
    assert ':' !in "arn" && ':' !in "aws" && ':' !in "s3";
    SixFields("arn", "aws", "s3", "", "", destination);
  }

  /** The replica key ARN names KMS, the target region, the account and the 'inbound' alias. */
  lemma InboundKeyArnFields(region: string, account: string)
    requires ':' !in region && ':' !in account
    ensures ArnFields(InboundKeyArn(region, account)) == ["arn", "aws", "kms", region, account, "alias/inbound"]
  {
    assert InboundKeyArn(region, account) ==
           "arn" + ":" + "aws" + ":" + "kms" + ":" + region + ":" + account + ":" + "alias/inbound";
    assert ':' !in "arn" && ':' !in "aws" && ':' !in "kms" && ':' !in "alias/inbound";
    SixFields("arn", "aws", "kms", region, account, "alias/inbound");
  }

  /**
   * The rule's destination and key ARNs parse back to the destination bucket, the target region
   * and the account they were built from.
   */
  lemma ReplicationRuleTargets(prefix: string, destination: string, targetRegion: string, accountId: string,
                               rulePriority: int)
    requires ':' !in destination && ':' !in targetRegion && ':' !in accountId
    ensures var rule := AddReplicationRule(prefix, destination, targetRegion, accountId, rulePriority);
            |ArnFields(rule.destinationBucket)| == 6 && ArnFields(rule.destinationBucket)[5] == destination &&
            |ArnFields(rule.replicaKmsKeyId)| == 6 && ArnFields(rule.replicaKmsKeyId)[3] == targetRegion &&
            ArnFields(rule.replicaKmsKeyId)[4] == accountId
  {
    BucketArnFields(destination);
    InboundKeyArnFields(targetRegion, accountId);
  }
}
