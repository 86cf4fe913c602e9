/**
 * The target agent's S3 upload request, region lookup and environment lookup. What S3
 * answers is a collaborator: `S3Service` says, per bucket and key, whether each call
 * succeeds.
 */
module TargetAwsUtils {
  import opened Wrappers
  import opened Records

  /** Whether S3 accepts an upload, a tagging request and a delete of (bucket, key). */
  datatype S3Service = S3Service(
    uploadOk: (string, string) -> bool,
    taggingOk: (string, string) -> bool,
    deleteOk: (string, string) -> bool)

  /**
   * One `upload_to_s3` call as issued: the file, the destination, the ExtraArgs
   * dictionary, and the TagSet of the tagging request that follows a successful upload
   * (None when no tagging request is made).
   */
  datatype UploadRequest = UploadRequest(
    localPath: string,
    bucket: string,
    key: string,
    extraArgs: map<string, string>,
    tagging: Option<set<(string, string)>>)

  /** The ExtraArgs of an upload: a storage class and SSE-KMS settings, each only when given. */
  function ExtraArgsFor(storageClass: Option<string>, kmsKeyArn: Option<string>): (args: map<string, string>)
    ensures "StorageClass" in args <==> Truthy(storageClass)
    ensures Truthy(storageClass) ==> args["StorageClass"] == storageClass.value
    ensures "ServerSideEncryption" in args <==> Truthy(kmsKeyArn)
    ensures "SSEKMSKeyId" in args <==> Truthy(kmsKeyArn)
    ensures Truthy(kmsKeyArn) ==> args["ServerSideEncryption"] == "aws:kms" && args["SSEKMSKeyId"] == kmsKeyArn.value
    ensures forall k :: k in args ==> k == "StorageClass" || k == "ServerSideEncryption" || k == "SSEKMSKeyId"
  {
    var withClass: map<string, string> := if Truthy(storageClass) then map["StorageClass" := storageClass.value] else map[];
    if Truthy(kmsKeyArn) then withClass["ServerSideEncryption" := "aws:kms"]["SSEKMSKeyId" := kmsKeyArn.value]
    else withClass
  }

  /** The TagSet built from a tag map: one {Key, Value} entry per tag. */
  function TagSet(tags: map<string, string>): (tagSet: set<(string, string)>)
    ensures forall k, v :: (k, v) in tagSet <==> k in tags && tags[k] == v
  {
    set k | k in tags :: (k, tags[k])
  }

  /** The TagSet has exactly as many entries as there are tags. */
  lemma {:induction false} TagSetSize(tags: map<string, string>)
    ensures |TagSet(tags)| == |tags|
    decreases |tags|
  {
    if tags != map[] {
      var k :| k in tags;
      var rest := tags - {k};
      TagSetSize(rest);
      assert TagSet(tags) == TagSet(rest) + {(k, tags[k])};
      assert (k, tags[k]) !in TagSet(rest);
      assert |rest| == |tags| - 1 by {
        assert tags.Keys == rest.Keys + {k};
      }
    } else {
      assert TagSet(tags) == {};
    }
  }

  /** The tagging request of an upload: made only for a non-empty tag map. */
  function TaggingFor(tags: map<string, string>): (tagging: Option<set<(string, string)>>)
    ensures tagging.Some? <==> |tags| > 0
    ensures tagging.Some? ==> tagging.value == TagSet(tags)
  {
    if |tags| > 0 then Some(TagSet(tags)) else None
  }

  /**
   * `upload_to_s3`: ExtraArgs are filled in step by step, the file is uploaded, then
   * tagged when there are tags. A client error on either call gives False.
   */
  method UploadToS3(localPath: string, bucket: string, key: string, tags: map<string, string>,
                    storageClass: Option<string>, kmsKeyArn: Option<string>, s3: S3Service)
    returns (ok: bool, request: UploadRequest)
    ensures request == UploadRequest(localPath, bucket, key, ExtraArgsFor(storageClass, kmsKeyArn), TaggingFor(tags))
    ensures ok <==> s3.uploadOk(bucket, key) && (|tags| == 0 || s3.taggingOk(bucket, key))
  {
    var extraArgs: map<string, string> := map[];
    if storageClass.Some? && storageClass.value != "" {
      extraArgs := extraArgs["StorageClass" := storageClass.value];
    }
    if kmsKeyArn.Some? && kmsKeyArn.value != "" {
      extraArgs := extraArgs["ServerSideEncryption" := "aws:kms"];
      extraArgs := extraArgs["SSEKMSKeyId" := kmsKeyArn.value];
    }
    request := UploadRequest(localPath, bucket, key, extraArgs, TaggingFor(tags));
    if !s3.uploadOk(bucket, key) {
      return false, request;
    }
    if |tags| > 0 && !s3.taggingOk(bucket, key) {
      return false, request;
    }
    ok := true;
  }

  /** `get_current_region`: AWS_DEFAULT_REGION, else the session's region, else 'us-east-1'. */
  function CurrentRegion(env: map<string, string>, sessionRegion: Option<string>): (region: string)
    ensures region != ""
    ensures "AWS_DEFAULT_REGION" in env && env["AWS_DEFAULT_REGION"] != "" ==> region == env["AWS_DEFAULT_REGION"]
    ensures !("AWS_DEFAULT_REGION" in env && env["AWS_DEFAULT_REGION"] != "") && Truthy(sessionRegion) ==>
              region == sessionRegion.value
    ensures !("AWS_DEFAULT_REGION" in env && env["AWS_DEFAULT_REGION"] != "") && !Truthy(sessionRegion) ==>
              region == "us-east-1"
  {
    var fromEnv := if "AWS_DEFAULT_REGION" in env then env["AWS_DEFAULT_REGION"] else "";
    var region := if fromEnv != "" then fromEnv else sessionRegion.GetOr("");
    if region != "" then region else "us-east-1"
  }

  /** The outcome of `get_env_var`: a value (None when unset), or the process exiting with a status. */
  datatype EnvLookup = Value(value: Option<string>) | Exit(status: int)

  /** `get_env_var`: a required variable that is unset or empty exits with status 1. */
  function GetEnvVar(env: map<string, string>, name: string, required: bool): (r: EnvLookup)
    ensures r.Exit? <==> required && (name !in env || env[name] == "")
    ensures r.Exit? ==> r.status == 1
    ensures r.Value? ==> r.value == (if name in env then Some(env[name]) else None)
    ensures r.Value? && required ==> r.value.Some? && r.value.value != ""
  {
    var value := if name in env then Some(env[name]) else None;
    if required && !Truthy(value) then Exit(1) else Value(value)
  }
}
