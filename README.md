# S3 cross-region compressor, modelled in Dafny

This project models the logic of the S3 cross-region compressor. The compressor is a
two-sided replication agent:

- A **source agent** reads S3 ObjectCreated events from an SQS queue. It downloads the new
  objects and writes a manifest. It packs the objects and the manifest into a tar archive,
  compresses the archive with zstd at an adaptively chosen level, and uploads it to a
  staging bucket in every destination region. Then it records the cost and benefit of the
  level it used.
- A **target agent** in each destination region reads the staging events. It unpacks the
  archive, uploads each object under its original key to the region's target buckets,
  and runs a backup phase that sends archives to backup targets and catalogues them. As
  written, that phase runs for every archive, even one without backup targets (see
  "## Findings"). It deletes the staging archive only when delivery succeeded.

The model also covers the deployment logic: replication-loop detection, notification
filters, replication rules and SQS queue names. It covers the backfill Lambda too, which
filters a listing of existing objects and sends synthetic events to the right source queue.

Every S3, SQS, DynamoDB, STS and CloudWatch call is a collaborator whose answer is a
parameter. The zstd, tar and JSON libraries are collaborators in the same way. The model
also takes as parameters:

- the random draws of the level explorer;
- uuids;
- the clock;
- URL-decoding of event keys.

Floating-point quantities are `real`s, and Python's `int()` of a non-negative value is
`Floor`. The file system is a class `FileSystem.Disk` that owns a map from path to
content. A tar archive is a sequence of named members, and a zstd file wraps its payload
together with its level.

| module | file | models |
|---|---|---|
| `Wrappers`, `Strings` | common.dfy | Option, and the Python string operations the code uses (split, join, strip, dirname/basename) |
| `Records` | records.dfy | destinations, stored attribute values, manifest entries and manifests |
| `FileSystem` | filesystem.dfy | the local disk and the contents it holds (plain files, tar archives, zstd files, manifest documents) |
| `CompressionOptimizer` | optimizer.dfy | best-level choice, CPU adjustment, exploration |
| `CostBenefitCalculator` | cost_benefit.dfy | benefit score |
| `CompressionSettingsRepository` | settings_repository.dfy | the per-key level statistics table |
| `CompressionManager` | compression_manager.dfy | the level-selection facade and its singleton |
| `DynamoDbUtils`, `ParametersRepository` | dynamodb_utils.dfy, parameters_repository.dfy | destination encoding, seeding and lookup |
| `S3Events`, `MessageBatches` | s3_events.dfy, message_batches.dfy | event parsing, test events, batch deletes |
| `SourceAwsUtils`, `TargetAwsUtils` | source_aws_utils.dfy, target_aws_utils.dfy | object metadata, upload arguments, region and environment |
| `SourceManifest`, `TargetManifest` | source_manifest.dfy, target_manifest.dfy | manifest construction and projection |
| `Compression`, `Decompression` | compression.dfy, decompression.dfy | archive assembly and unpacking on the disk |
| `SourceMetrics`, `TargetMetrics` | metrics.dfy | metric values and what is reported |
| `SourceServer` | source_server.dfy | the source agent's batch pipeline |
| `TargetServer`, `TargetProcessing` | target_server.dfy, target_processing.dfy | the target agent's uploads, backups, catalog and batch pipeline |
| `ConfigUtils`, `S3Utils`, `SqsNames` | config_utils.dfy, s3_utils.dfy, sqs_names.dfy | deployment-time checks and names |
| `BackfillLambda` | backfill_lambda.dfy | the backfill Lambda |

Some behaviours follow the code as written and may look surprising:

- At the bucket root, the source agent records the object's whole key as its relative key
  and the key's folder as its source prefix. The target therefore uploads
  'test/object1.txt' as 'test/test/object1.txt' (`SourceServer.RootKeyRepeatsFolder`).
- The backfill Lambda's multi-queue loop also sends the 'UNMATCHED' group, to a queue
  named for it (`BackfillLambda.RoutedToGroupQueue`).
- Synthetic events carry the raw listed key, which the source agent URL-decodes
  (`BackfillLambda.SyntheticEventReachesAgent`).
- The backfill Lambda addresses queues by unsanitised names, while the deployment
  sanitises them. The two agree only for names made of valid characters
  (`SqsNames.BackfillNameIsDeployedName`, `SqsNames.DottedBucketNamesDiverge`).
- Sanitising queue names can map two replication sources to one queue
  (`SqsNames.SanitizedCollides`).
- The comment at test_loop_detection.py:71 says "should NOT detect a loop". The code and
  the expected output at line 115 both say a loop is detected, and the model follows the
  code (`ConfigUtils.EmptyPrefixExample`).
- `update_metrics` on a key with no stored record fails and changes nothing. DynamoDB
  rejects an update of a nested path whose parent map is missing.
- `get_best_level` divides by a candidate's object count. A candidate with
  `objects == 0` raises, which the model represents as no level. The error then travels
  to `compress_tar_with_zstd`'s error result.

## Model

| member | source | states |
|---|---|---|
| `CompressionOptimizer.GetBestLevel` | bin/source_region/utils/compression_optimizer.py:30-65 | the loop returns the default level for empty statistics, the level of the winning candidate (at least 10 trials, highest positive average benefit per object, the first seen on ties), the default when no candidate is positive, and an error when a candidate has no objects (the division by zero) |
| `CompressionOptimizer.ScanResult` | bin/source_region/utils/compression_optimizer.py:46-60 | the scan over the statistics fails exactly when a candidate has zero objects; otherwise it ends on the winning entry and its average, or on the default level with 0 when no candidate has a positive average |
| `CompressionOptimizer.BestLevelResult` | bin/source_region/utils/compression_optimizer.py:41-65 | the best level is the default when no candidate is positive and the winning entry's level otherwise |
| `CompressionOptimizer.WinnerUnique` | bin/source_region/utils/compression_optimizer.py:58-60 | at most one entry can win (strictly above every earlier candidate, at least every later one), so the selected level is well defined |
| `CompressionOptimizer.ScanPrefixFails` | bin/source_region/utils/compression_optimizer.py:49-56 | once a candidate earlier in the table divides by zero, the whole call fails whatever follows |
| `CompressionOptimizer.SelectLevelBasedOnCpu` | bin/source_region/utils/compression_optimizer.py:67-96 | a CPU more than 10% faster than average raises the level by one (capped at 22), more than 10% slower lowers it by one (floored at 1), anything else or a non-positive average keeps it |
| `CompressionOptimizer.SelectLevelBounds` | bin/source_region/utils/compression_optimizer.py:86-96 | from a level in [1, 22] the CPU-adjusted level stays in [1, 22] and moves at most one step |
| `CompressionOptimizer.ExplorationRateBounds` | bin/source_region/utils/compression_optimizer.py:115-126 | the exploration rate lies between 12.5% and 25% for every version count |
| `CompressionOptimizer.ExplorationRateMonotone` | bin/source_region/utils/compression_optimizer.py:119-126 | the exploration rate never grows as the version count grows |
| `CompressionOptimizer.ExploreAdjacentLevel` | bin/source_region/utils/compression_optimizer.py:98-180 | a draw at or above the exploration rate keeps the chosen level; below it, the first 60% of the rate moves one level, the next 25% two, the last 15% three, down when the direction draw is below 0.5 and up otherwise, clamped to [1, 22] |
| `CompressionOptimizer.ExploreBounds` | bin/source_region/utils/compression_optimizer.py:143-180 | an explored level stays in [1, 22], within three of the chosen level and on the side the direction draw picked |
| `CostBenefitCalculator.NewCalculator` | bin/source_region/utils/cost_benefit_calculator.py:18-28 | each cost factor is the environment value when set and the default (0.02 per GiB, 0.000395 per minute) otherwise; the CPU factor is stored as given |
| `CostBenefitCalculator.BytesSaved` | bin/source_region/utils/cost_benefit_calculator.py:54 | the bytes saved are never negative and are the size reduction whenever there is one |
| `CostBenefitCalculator.CalculateMetrics` | bin/source_region/utils/cost_benefit_calculator.py:30-75 | the level and file count are echoed, and the score plus the compute cost equals the transfer savings across all target regions |
| `CostBenefitCalculator.NoReductionCostsCompute` | bin/source_region/utils/cost_benefit_calculator.py:54-62 | an archive no smaller than its input scores exactly minus its compute cost |
| `CostBenefitCalculator.ScoreIgnoresFileCountAndCpu` | bin/source_region/utils/cost_benefit_calculator.py:18-28 | the stored CPU factor and the file count have no effect on the score |
| `CostBenefitCalculator.ScoreNonIncreasingInTime` | bin/source_region/utils/cost_benefit_calculator.py:67-71 | with a non-negative compute price, a longer processing time never raises the score |
| `CostBenefitCalculator.ScoreNonDecreasingInRegions` | bin/source_region/utils/cost_benefit_calculator.py:73-75 | with a non-negative transfer price, more target regions never lower the score |
| `FileSystem.WithoutDir` | bin/source_region/utils/compression.py:330 | the files left after removing a directory tree are exactly those outside it, unchanged |
| `FileSystem.Disk.Write` | bin/source_region/utils/compression.py:105-145 | writing a file sets that path's content and leaves every other path alone |
| `FileSystem.Disk.Remove` | bin/source_region/utils/compression.py:134 | removing a file drops that path only |
| `FileSystem.Disk.RemoveTree` | bin/source_region/utils/compression.py:330 | removing a directory tree drops every file under it and nothing else |
| `CompressionSettingsRepository.IndexOfLevel` | bin/source_region/utils/compression_settings_repository.py:108-110 | the position of a level among the stored level entries, or -1 exactly when no entry has that level |
| `CompressionSettingsRepository.ApplyUpdate` | bin/source_region/utils/compression_settings_repository.py:97-162 | the update is rejected exactly when the record has no LevelStats map; otherwise Version gains 1, TotalProcessedFiles the file count, SumCpuFactor the CPU factor (a missing attribute counting as 0), and LastUpdated is the current time |
| `CompressionSettingsRepository.UpdatedLevelEntry` | bin/source_region/utils/compression_settings_repository.py:112-153 | after an update the levels stay distinct, and the updated level's entry has one more trial, file_count more objects and the benefit added, or is the fresh entry (1, file_count, benefit) when the level was new |
| `CompressionSettingsRepository.UpdateTouchesOneLevel` | bin/source_region/utils/compression_settings_repository.py:112-153 | an update changes only the updated level's entry, keeps the order of the others and adds at most one entry |
| `CompressionSettingsRepository.UpdatePreservesConsistency` | bin/source_region/utils/compression_settings_repository.py:83-166 | every update of a record whose Version counts all trials and whose TotalProcessedFiles counts all objects succeeds and keeps both counts exact |
| `CompressionSettingsRepository.InitialConsistent` | bin/source_region/utils/compression_settings_repository.py:66-77 | the initial record (zero totals, empty LevelStats) already satisfies the bookkeeping invariant |
| `CompressionSettingsRepository.Deserialize` | bin/source_region/utils/compression_settings_repository.py:168-192 | the key is kept; missing totals read as 0 and a missing LastUpdated as the current time; every level entry keeps its level, trials and benefit, with missing objects read as the trial count |
| `CompressionSettingsRepository.FillObjects` | bin/source_region/utils/compression_settings_repository.py:179-189 | each level entry keeps its position, level, trials and benefit, and gets its objects count or its trial count when absent |
| `CompressionSettingsRepository.SettingsRepository.GetSettings` | bin/source_region/utils/compression_settings_repository.py:34-52 | the deserialised record when the key is stored, and nothing when it is absent or the read fails |
| `CompressionSettingsRepository.SettingsRepository.CreateSettings` | bin/source_region/utils/compression_settings_repository.py:54-81 | the conditional put succeeds exactly when the store answers and the key is absent, and then adds only the initial record; otherwise the table is unchanged |
| `CompressionSettingsRepository.SettingsRepository.UpdateMetrics` | bin/source_region/utils/compression_settings_repository.py:83-166 | the update succeeds exactly when the store answers and the record exists with LevelStats; on success only that record changes, to the updated one; every stored record keeps the bookkeeping invariant |
| `CompressionManager.BucketPrefixKey` | bin/source_region/utils/compression_manager.py:76-88 | the key starts with the bucket and '/', ends with '/', and is just the bucket and '/' for an empty prefix; for a non-empty prefix it is the bucket, '/', the prefix with its trailing '/'s removed, and '/' |
| `CompressionManager.UnslashedPrefixKey` | bin/source_region/utils/compression_manager.py:76-88 | a non-empty prefix without a trailing '/' is kept whole in the key, between the bucket's '/' and one closing '/' |
| `CompressionManager.BucketPrefixKeyInjective` | bin/source_region/utils/compression_manager.py:76-88 | within one bucket, two prefixes without a trailing '/' share a settings key iff they are equal |
| `CompressionManager.BucketPrefixKeyTrailingSlash` | bin/source_region/utils/compression_manager.py:87 | a trailing '/' on a non-empty prefix does not change the key |
| `CompressionManager.BucketPrefixKeyExamples` | bin/source_region/utils/compression_manager.py:76-88 | the keys of an empty, a plain, a slash-terminated and a nested prefix are 'test-bucket/', 'test-bucket/prefix/' (twice) and 'test-bucket/nested/prefix/' |
| `CompressionManager.SettingsKey` | bin/source_region/utils/compression_manager.py:103 | an explicit settings key wins; otherwise the bucket/prefix key is used |
| `CompressionManager.ChooseLevel` | bin/source_region/utils/compression_manager.py:114-144 | the level is the best stored level, adjusted for the CPU factor against the fleet average (SumCpuFactor / Version, 1.0 before any update), then explored with the version count; it fails exactly when choosing the best level divides by zero |
| `CompressionManager.ChooseLevelInRange` | bin/source_region/utils/compression_manager.py:121-144 | with stored levels in [1, 22], every chosen level is a valid zstd level in [1, 22] |
| `CompressionManager.LevelFor` | bin/source_region/utils/compression_manager.py:103-144 | a lookup gives the default level 12 when the read fails, the record is absent or its level statistics are empty, and the chosen level otherwise |
| `CompressionManager.TableAfterLookup` | bin/source_region/utils/compression_manager.py:106-112 | a lookup adds a record only when there were no statistics, the create succeeds and the key was absent, and then only the initial record; stored records never change |
| `CompressionManager.LevelForInRange` | bin/source_region/utils/compression_manager.py:90-144 | with stored levels in [1, 22] every level a lookup hands out is in [1, 22] |
| `CompressionManager.Manager.constructor` | bin/source_region/utils/compression_manager.py:60-74 | the manager keeps its repository and CPU factor and builds its calculator from the environment |
| `CompressionManager.Manager.GetCompressionLevel` | bin/source_region/utils/compression_manager.py:90-144 | the level returned is LevelFor of the table before the call and the table afterwards is TableAfterLookup of it; the bookkeeping invariant is kept |
| `CompressionManager.Manager.UpdateCompressionMetrics` | bin/source_region/utils/compression_manager.py:146-202 | with no timing it returns false and leaves the store alone; otherwise processing time is preferred over compression time, the calculator's benefit score is recorded, and the result and new table are those of the repository update |
| `CompressionManager.ManagerRegistry.Initialize` | bin/source_region/utils/compression_manager.py:31-45 | initialising always installs a new manager with the given repository and CPU factor |
| `CompressionManager.ManagerRegistry.GetInstance` | bin/source_region/utils/compression_manager.py:47-58 | the existing manager is returned unchanged; without one a new manager with CPU factor 1.0 is installed and returned |
| `DynamoDbUtils.ParamName` | s3_cross_region_compressor/utils/dynamodb_utils.py:53-57 | a parameter is named '/{stack}/{bucket}', followed by '/{prefix}' exactly when the prefix filter is non-empty |
| `DynamoDbUtils.EncodeDestination` | s3_cross_region_compressor/utils/dynamodb_utils.py:107-127 | a destination encodes exactly when it has a region and a bucket (otherwise the lookup raises); the encoding is a map holding them as strings, with the KMS key, storage class and backup flag present exactly when given |
| `DynamoDbUtils.EncodeList` | s3_cross_region_compressor/utils/dynamodb_utils.py:105-129 | a destination list encodes exactly when every destination does, one entry per destination in order |
| `DynamoDbUtils.DestinationsToDynamoDbFormat` | s3_cross_region_compressor/utils/dynamodb_utils.py:95-129 | the loop that fills and appends one item per destination returns the list encoding, or fails when a destination cannot be encoded |
| `DynamoDbUtils.EncodeFailsOnPrefix` | s3_cross_region_compressor/utils/dynamodb_utils.py:107-111 | once a destination early in the list cannot be encoded, the whole conversion fails |
| `DynamoDbUtils.SeedItem` | s3_cross_region_compressor/utils/dynamodb_utils.py:48-92 | a rule is seeded under its parameter name with the name, its encoded destinations and the time, and fails exactly when a destination cannot be encoded |
| `DynamoDbUtils.SeededEntry` | s3_cross_region_compressor/utils/dynamodb_utils.py:48-92 | after seeding all rules in order, a rule whose name no later rule reuses keeps its seeded item in the table |
| `ParametersRepository.DecodeDestination` | bin/source_region/utils/parameters_repository.py:103-122 | a destination decodes exactly when it is a map whose region and bucket, when present, are strings; every field is kept exactly when present (the optional ones only when well-typed) with its stored value |
| `ParametersRepository.DecodeList` | bin/source_region/utils/parameters_repository.py:103-122 | a destination list decodes exactly when every element does, element by element in order |
| `ParametersRepository.DeserializeDestinations` | bin/source_region/utils/parameters_repository.py:103-122 | the loop that decodes and appends one destination at a time returns the list decoding, or fails when an element raises |
| `ParametersRepository.DeserializeDestination` | bin/source_region/utils/parameters_repository.py:107-121 | one pass of that loop gives exactly the destination decoding of the element: nothing for a non-map or a mistyped region or bucket |
| `ParametersRepository.DecodeFailsOnPrefix` | bin/source_region/utils/parameters_repository.py:106-113 | once an early element fails to decode, the whole list fails |
| `ParametersRepository.DeserializeItem` | bin/source_region/utils/parameters_repository.py:92-101 | an item decodes exactly when each attribute present has its expected type and its destinations decode; each result field is present exactly when its attribute is |
| `ParametersRepository.GetParameter` | bin/source_region/utils/parameters_repository.py:35-53 | a found parameter was stored and readable; a stored, readable item gives its deserialisation; anything else gives nothing |
| `ParametersRepository.GetParameterWithPrefix` | bin/source_region/utils/parameters_repository.py:55-90 | with a monitored prefix whose item has destinations, the prefix-level name and destinations; otherwise the bucket-level ones when present, else ('', nothing); the name is empty exactly when no destinations are returned |
| `ParametersRepository.DecodeEncodeDestination` | bin/source_region/utils/parameters_repository.py:103-122 | decoding an encoded destination gives it back |
| `ParametersRepository.DecodeEncodeList` | bin/source_region/utils/parameters_repository.py:103-122 | decoding an encoded destination list gives it back |
| `ParametersRepository.SeedThenLookup` | bin/source_region/utils/parameters_repository.py:55-90 | a rule seeded at deployment is found again by the agent: the lookup for the rule's bucket and prefix returns the seeded name and the rule's own destinations |
| `S3Events.IsS3TestEvent` | bin/source_region/utils/aws_utils.py:114-147 | a message is a test event exactly when its body parses and either its Event is 's3:TestEvent' or some record from 'aws:s3' is named 's3:TestEvent' |
| `S3Events.Extracted` | bin/source_region/utils/aws_utils.py:163-175 | a record list yields at most one object per record |
| `S3Events.ExtractS3EventInfo` | bin/source_region/utils/aws_utils.py:149-179 | the loop yields nothing for an unparseable body and otherwise the objects of the extractable records in record order, keys decoded |
| `S3Events.ExtractedMembership` | bin/source_region/utils/aws_utils.py:164-173 | an object is extracted exactly when some record comes from 'aws:s3', is an ObjectCreated event, has a bucket and a key, and names that object |
| `S3Events.TestRecordsYieldNothing` | bin/source_region/utils/aws_utils.py:164-173 | a body made only of test records yields no object |
| `S3Events.EntryIds` | bin/source_region/utils/aws_utils.py:97 | a batch of n deletions gets the ids '0' to 'n-1' in order |
| `S3Events.EntryIdsDistinct` | bin/source_region/utils/aws_utils.py:97 | no two entries of a deletion batch share an id |
| `S3Events.DeleteSqsMessagesBatch` | bin/source_region/utils/aws_utils.py:83-112 | an empty list makes no call and reports nothing; otherwise one entry per handle with its ordinal id is sent, and the answer's ids are reported, or every id as failed on a client error |
| `MessageBatches.TestHandles` | bin/source_region/server.py:185-193 | the test-event handles are no more than the messages |
| `MessageBatches.Regular` | bin/source_region/server.py:185-193 | the regular messages are no more than the messages |
| `MessageBatches.Handles` | bin/source_region/server.py:218-222 | one receipt handle per message, in message order |
| `MessageBatches.SplitTestEvents` | bin/source_region/server.py:185-193 | the loop returns the test-event handles and the regular messages, each in batch order |
| `MessageBatches.CollectObjects` | bin/source_region/server.py:218-223 | the loop returns every regular message's handle and every object the messages announce, in order |
| `MessageBatches.HandlesSnoc` | bin/source_region/server.py:218-222 | one more message adds exactly its handle at the end |
| `MessageBatches.SplitSnoc` | bin/source_region/server.py:188-193 | one more message goes either to the test handles or to the regular messages, at the end |
| `MessageBatches.TestSplitCount` | bin/source_region/server.py:185-193 | test events and regular messages together account for every message exactly once |
| `MessageBatches.TestSplit` | bin/source_region/server.py:185-222 | the test handles and the regular messages' handles are, as a multiset, exactly the handles of the batch, so every message is deleted by one of the two paths |
| `SourceAwsUtils.TagList` | bin/source_region/utils/aws_utils.py:249-251 | one single-entry dictionary per tag of the tag set, in order |
| `SourceAwsUtils.ObjectMetadata` | bin/source_region/utils/aws_utils.py:214-258 | nothing when the HEAD request fails; otherwise the bucket, the monitored prefix (or the key's folder), the last key segment, the time, the unquoted etag, the size (0 when absent), the storage class ('STANDARD' when absent) and the tags (none when the tag request fails) |
| `SourceAwsUtils.MetadataSplitsKey` | bin/source_region/utils/aws_utils.py:233-239 | without a monitored prefix, the key is its folder, '/' and the object name when it contains '/', and is the object name alone otherwise; the name never holds '/' |
| `SourceAwsUtils.EtagUnquoted` | bin/source_region/utils/aws_utils.py:241 | the stored etag loses its surrounding quotes |
| `SourceAwsUtils.TargetInfo` | bin/source_region/utils/aws_utils.py:331-351 | the parameter name and destinations of the prefix lookup, or ('', []) when no destinations or an empty list come back |
| `SourceAwsUtils.TargetInfoNamed` | bin/source_region/utils/aws_utils.py:345-351 | a non-empty target list always comes with the non-empty name of the parameter that holds exactly those destinations |
| `TargetAwsUtils.ExtraArgsFor` | bin/target_region/utils/aws_utils.py:238-249 | ExtraArgs holds the storage class exactly when one is given and the SSE-KMS pair exactly when a key is given, and nothing else |
| `TargetAwsUtils.TagSet` | bin/target_region/utils/aws_utils.py:259 | the TagSet lists exactly the (key, value) pairs of the tag map |
| `TargetAwsUtils.TagSetSize` | bin/target_region/utils/aws_utils.py:259 | the TagSet has one entry per tag |
| `TargetAwsUtils.TaggingFor` | bin/target_region/utils/aws_utils.py:258-260 | a tagging request is made exactly when the tag map is non-empty, with its TagSet |
| `TargetAwsUtils.UploadToS3` | bin/target_region/utils/aws_utils.py:214-266 | the upload request carries the computed ExtraArgs and tagging, and the result is true exactly when the upload succeeds and, when there are tags, the tagging succeeds |
| `TargetAwsUtils.CurrentRegion` | bin/target_region/utils/aws_utils.py:345-365 | AWS_DEFAULT_REGION when set, else the session's region, else 'us-east-1'; never empty |
| `TargetAwsUtils.GetEnvVar` | bin/target_region/utils/aws_utils.py:325-343 | a required variable that is unset or empty exits with status 1; otherwise the variable's value, or nothing when unset |
| `SourceManifest.EntryOf` | bin/source_region/utils/manifest.py:41-52 | an entry keeps exactly the nine manifest fields, each present: the object's own value, or its default ('' for names and times, the object name for a missing relative key, 'STANDARD', size 0, no tags); the full key is dropped |
| `SourceManifest.Entries` | bin/source_region/utils/manifest.py:117-118 | one entry per object metadata, in order |
| `SourceManifest.ManifestBuilder.constructor` | bin/source_region/utils/manifest.py:18-25 | a new manifest has no targets and no objects |
| `SourceManifest.ManifestBuilder.Value` | bin/source_region/utils/manifest.py:18-25 | the manifest document holds the builder's targets and objects |
| `SourceManifest.ManifestBuilder.SetTargets` | bin/source_region/utils/manifest.py:114 | the targets are replaced and the objects kept |
| `SourceManifest.ManifestBuilder.AddObject` | bin/source_region/utils/manifest.py:28-57 | exactly one entry, built from the metadata, is appended; the earlier entries and the targets are unchanged |
| `SourceManifest.CreateObjectManifest` | bin/source_region/utils/manifest.py:98-124 | the result is true exactly when the object list exists and the write succeeds; then only the output path changes, to a manifest holding the targets verbatim and one entry per object in order; otherwise the disk is unchanged |
| `TargetManifest.InfoOf` | bin/target_region/utils/manifest.py:60-87 | a named entry becomes a record with its name, the relative key or the name, the local path under 'objects' of the extract directory, the storage class ('STANDARD' when absent), the size (0 when absent) and the manifest's targets |
| `TargetManifest.Projected` | bin/target_region/utils/manifest.py:58-99 | no more records than entries, and none at all when the manifest has no targets |
| `TargetManifest.GetObjectPathsFromManifest` | bin/target_region/utils/manifest.py:36-102 | the loop returns the records of the manifest's entries, in order |
| `TargetManifest.ProjectedMembership` | bin/target_region/utils/manifest.py:59-99 | a record is produced exactly for each entry with a non-empty name, and only when the manifest has targets |
| `TargetManifest.ProjectedAllNamed` | bin/target_region/utils/manifest.py:59-99 | when every entry is named, there is one record per entry, in entry order |
| `TargetManifest.ManifestRoundTrip` | bin/target_region/utils/manifest.py:36-102 | what the target reads from a manifest the source wrote has one record per named object, in order, with the object's name, relative key, storage class, size, tags and every destination |
| `TargetManifest.Flatten` | bin/target_region/utils/manifest.py:118-120 | the merged tag map has exactly the keys of the tag dictionaries |
| `TargetManifest.TagsFor` | bin/target_region/utils/manifest.py:114-129 | the tags are the merged tag keys plus OriginalCreationTime and OriginalETag exactly when those values are non-empty, holding those values; the other merged tags keep their values |
| `TargetManifest.PrepareObjectTags` | bin/target_region/utils/manifest.py:104-129 | the loop merging the tag dictionaries in order and adding the two provenance tags returns TagsFor of the record |
| `TargetManifest.FlattenTagList` | bin/target_region/utils/manifest.py:118-120 | tags the source captured as single-entry dictionaries merge back to the original tag set when its keys are distinct |
| `Compression.BufferSizes` | bin/source_region/utils/compression.py:76-103 | the read and write buffers are 45% and 55% of 15% of the available memory, each truncated to an integer, so together they never exceed 15% and the read buffer is never the larger |
| `Compression.ArchiveDistinct` | bin/source_region/utils/compression.py:122-136 | for distinct source paths the archive holds exactly the sources that exist, in order, with their contents, and every archived source except a manifest is removed from disk |
| `Compression.CreateTarArchive` | bin/source_region/utils/compression.py:105-145 | on a tar failure the disk is unchanged and ('' , false) returned; otherwise the loop archives and removes the sources as Archive does, and the tar is written to temp_dir/archive.tar whatever the output path |
| `Compression.ResolvedLevel` | bin/source_region/utils/compression.py:180-197 | an explicit level is used as given; without one the manager's level for the bucket/prefix key when a bucket is known, and 12 otherwise |
| `Compression.CompressTarWithZstd` | bin/source_region/utils/compression.py:147-239 | a missing tar fails and changes nothing; otherwise the settings table changes only by the manager's lookup, the call succeeds exactly when a level is found and compression succeeds, and then the output holds the compressed tar, the tar is deleted and the original size, compressed size and level are reported; a failure reports zeros and keeps the disk |
| `Compression.ArchivePathOf` | bin/source_region/utils/compression.py:283-286 | an object is archived under 'objects/', so never under the manifest's name |
| `Compression.ObjectFiles` | bin/source_region/utils/compression.py:276-295 | at most one archive entry per object |
| `Compression.CompressObjects` | bin/source_region/utils/compression.py:241-333 | a missing manifest or a tar failure fails with the temporary directory removed and nothing else changed; otherwise the result follows the compression step: the archive path is output_dir/archive.tar.zst and the original size sums the existing object files and the manifest; the temporary directory is removed on every path |
| `Compression.BatchArchiveNames` | bin/source_region/utils/compression.py:283-300 | every object's archive path starts with 'objects/' and the manifest is archived last as 'manifest.json' |
| `Decompression.BufferSizes` | bin/target_region/utils/decompression.py:69-99 | the read and write buffers are 25% and 75% of 15% of the available memory, each truncated, together at most 15% |
| `Decompression.FileNames` | bin/target_region/utils/decompression.py:259 | a name is listed exactly when some non-directory member carries it |
| `Decompression.TarMembers` | bin/target_region/utils/decompression.py:247-264 | the non-directory member names of a readable tar, and [] when the file is missing or not a tar |
| `Decompression.FirstIndex` | bin/target_region/utils/decompression.py:208-213 | the first member with the name, or -1 exactly when there is none |
| `Decompression.LastIndex` | bin/target_region/utils/decompression.py:236 | the last member with the name, the one the tar lookup by name returns, or -1 exactly when there is none |
| `Decompression.Extracted` | bin/target_region/utils/decompression.py:213 | extracting a file member writes its content at dir/name and changes nothing else; a directory member adds no file |
| `Decompression.DecompressZstdFile` | bin/target_region/utils/decompression.py:154-191 | succeeds exactly when the input exists and is a zstd frame; then the output holds the payload and both sizes are reported; a missing input changes nothing; a corrupt one leaves an empty, truncated output |
| `Decompression.ExtractManifestOnly` | bin/target_region/utils/decompression.py:193-219 | succeeds exactly when the file is a tar with a member named 'manifest.json'; then only the first such member is extracted, into the directory, and its path returned; otherwise nothing changes |
| `Decompression.StreamExtractFile` | bin/target_region/utils/decompression.py:221-245 | succeeds exactly when the file is a tar with a member of that name; then that member, the last of its name, is extracted and nothing else; otherwise nothing changes |
| `Decompression.DecompressAndExtract` | bin/target_region/utils/decompression.py:266-318 | succeeds exactly when the input is a zstd frame holding a tar with a manifest; then the tar is kept at temp_dir/archive.tar, only the manifest is extracted into temp_dir/extracted and both sizes are reported; a failure reports ('', 0, 0) |
| `Decompression.ArchiveKeepsManifests` | bin/source_region/utils/compression.py:130-134 | archiving never deletes or changes a file whose path ends in 'manifest.json' |
| `Decompression.ArchiveMemberNames` | bin/source_region/utils/compression.py:126-128 | every archive member is named by the archive path of a listed file |
| `Decompression.ObjectFilesNotManifest` | bin/source_region/utils/compression.py:283-286 | no object of a batch is archived under the name 'manifest.json' |
| `Decompression.ArchivedManifestIsFirst` | bin/target_region/utils/decompression.py:205-213 | in the tar the source builds for a batch, the first member named 'manifest.json' is the source's manifest file as it was on disk, so the target extracts exactly that file |
| `Decompression.BatchArchiveUnpacks` | bin/target_region/utils/decompression.py:266-309 | an archive the source staged for a batch, at any level and size, unpacks on the target, and the extracted manifest is the source's manifest file |
| `SourceMetrics.CompressionRatio` | bin/source_region/utils/metrics.py:25-40 | the ratio times the compressed size is the original size, and the ratio is 0 when the compressed size is not positive |
| `SourceMetrics.RatioAtLeastOne` | bin/source_region/utils/metrics.py:25-40 | with a positive compressed size the ratio is at least 1 exactly when the data did not grow |
| `SourceMetrics.BytesSaved` | bin/source_region/utils/metrics.py:42-54 | the saving is never negative, is the exact size reduction when the data shrank, and 0 when it grew |
| `SourceMetrics.TransferEfficiency` | bin/source_region/utils/metrics.py:56-71 | the efficiency times the original size is 100 times the saving, and 0 when the original size is not positive |
| `SourceMetrics.EfficiencyIsPercentage` | bin/source_region/utils/metrics.py:56-71 | a saving between nothing and the whole original is a percentage between 0 and 100 |
| `SourceMetrics.EfficiencyOfCompression` | bin/source_region/utils/metrics.py:128-144 | the reported efficiency of any compression is between 0 and 100 percent |
| `SourceMetrics.CompressionThroughput` | bin/source_region/utils/metrics.py:73-90 | the throughput times the time is the original size in MiB, and 0 when the time is not positive |
| `SourceMetrics.PrefixDimension` | bin/source_region/utils/metrics.py:135-137 | the SourcePrefix dimension is the monitored prefix whenever one is passed (even ''), else the object's prefix, with an empty choice reported as 'root'; never empty |
| `SourceMetrics.ThroughputTime` | bin/source_region/utils/metrics.py:146-154 | throughput uses the compression time when positive, else the processing time when positive, else is not reported |
| `SourceMetrics.RegionReportCount` | bin/source_region/utils/metrics.py:157-176 | one region report per target that has a region |
| `SourceMetrics.RegionReportsNamed` | bin/source_region/utils/metrics.py:160-174 | every region report names the region of one of the targets |
| `SourceMetrics.RegionReportsAligned` | bin/source_region/utils/metrics.py:157-176 | when every target has a region, report i is for target i's region |
| `SourceMetrics.RegionCountAll` | bin/source_region/utils/metrics.py:160-162 | when every target has a region, every target is reported |
| `SourceMetrics.ReportCompressionMetrics` | bin/source_region/utils/metrics.py:92-183 | the reporting loop gives the summary report followed by one report per target with a region, or false and nothing when the metrics logger fails |
| `SourceMetrics.ThroughputReported` | bin/source_region/utils/metrics.py:146-154 | the summary carries a throughput exactly when a positive compression or processing time is known, computed from the compression time when that one is positive |
| `SourceMetrics.RootAgentReportsRoot` | bin/source_region/server.py:342-350 | an agent monitoring the bucket root passes '' as its prefix, so every report it makes is filed under 'root' whatever the object's own prefix |
| `SourceMetrics.RegionContextsRoot` | bin/source_region/utils/metrics.py:185-229 | every region report of a root-monitoring agent carries the 'root' prefix |
| `TargetMetrics.DecompressionRatio` | bin/target_region/utils/metrics.py:26-42 | the ratio times the compressed size is the decompressed size, and 0 when the compressed size is not positive |
| `TargetMetrics.RatioAgreesWithSource` | bin/target_region/utils/metrics.py:26-42 | the target's ratio of an archive equals the source's compression ratio of the same archive |
| `TargetMetrics.DecompressionRatioExamples` | bin/target_region/utils/metrics.py:26-42 | 5000 bytes from 1000 is a ratio of 5, equal sizes give 1, and a negative compressed size gives 0 |
| `TargetMetrics.DecompressionReport` | bin/target_region/utils/metrics.py:44-78 | true with one report holding the ratio and both sizes under the TargetBucket dimension, or false and nothing when the metrics logger fails |
| `SourceServer.RelativeKey` | bin/source_region/server.py:146-154 | a key that starts with a non-empty monitored prefix becomes what follows the prefix with leading '/' removed; any other key is kept whole |
| `SourceServer.ProcessS3Object` | bin/source_region/server.py:112-159 | an object yields nothing exactly when the download or the HEAD request fails; otherwise its metadata with its full key and relative key, and its local file |
| `SourceServer.KeyRebuiltUnderPrefix` | bin/source_region/server.py:146-154 | under a monitored prefix, the source prefix, '/' and the relative key give the original key back, which is what the target uploads to |
| `SourceServer.RootKeyRepeatsFolder` | bin/source_region/server.py:147-152 | at the bucket root the relative key is the whole key while the source prefix is its folder, so the target's prefix/relative key repeats the folder ('test/object1.txt' becomes 'test/test/object1.txt') |
| `SourceServer.StagingKeyFolder` | bin/source_region/server.py:300-308 | every staging key is the bucket, the folder the archive is filed under and the archive name; a monitored prefix with or without its trailing '/' files the archive alike |
| `SourceServer.Results` | bin/source_region/server.py:235-237 | one result per announced object, in order |
| `SourceServer.Survivors` | bin/source_region/server.py:240-242 | no more survivors than results |
| `SourceServer.SurvivorsMembership` | bin/source_region/server.py:240-242 | a result survives exactly when it is a success |
| `SourceServer.Metas` | bin/source_region/server.py:242 | the survivors' metadata, one per survivor, in order |
| `SourceServer.Paths` | bin/source_region/server.py:243-249 | the survivors' object paths (local path, name, relative key), one per survivor, in order |
| `SourceServer.ProcessObjects` | bin/source_region/server.py:234-237 | the download fan-out returns the per-object results in object order |
| `SourceServer.CollectResults` | bin/source_region/server.py:239-249 | the loop keeps the metadata and object paths of exactly the successful results, in order |
| `SourceServer.ProcessMessageBatch` | bin/source_region/server.py:161-367 | one polling iteration: an empty receive returns 0; test events are deleted first and a batch of only test events counts every message; each failed step (no objects, no survivors, no destinations, no manifest, no archive) stops with the message count and no deletion; a failed upload returns 0; otherwise the metrics are recorded and the regular messages deleted |
| `SourceServer.DeletedOnlyAfterUpload` | bin/source_region/server.py:292-353 | the regular messages are deleted exactly when the archive was uploaded, after the metrics update, and then with the test events every received message is deleted exactly once |
| `SourceServer.PipelineDeletes` | bin/source_region/server.py:310-353 | the pipeline deletes the handles it collected exactly when the upload succeeded, and then all of them |
| `SourceServer.CountBounded` | bin/source_region/server.py:161-367 | the count returned never exceeds the messages received and is 0 exactly for an empty receive or a failed upload |
| `SourceServer.SameSettingsKey` | bin/source_region/server.py:263-338 | the level choice and the metrics update use the same settings key (the name of the parameter holding the destinations), bucket and prefix; the benefit counts every destination and the file count is the number of surviving objects |
| `SourceServer.ManifestMatchesArchive` | bin/source_region/server.py:269-290 | the manifest lists every surviving object in order with the destinations the archive is compressed for, and the archive holds one object path per survivor with the same name and relative key |
| `SourceServer.SurvivorsAnnounced` | bin/source_region/server.py:216-249 | every surviving object was announced by a regular message and both its download and its HEAD request succeeded |
| `TargetServer.RegionTargets` | bin/target_region/server.py:476-488 | the current-region targets are exactly the listed targets whose region is this region, and there are no more of them than targets |
| `TargetServer.TargetKey` | bin/target_region/server.py:514-522 | without a source prefix an object lands under its relative key; with one, under the prefix, '/', and then exactly the relative key |
| `TargetServer.StorageClassFor` | bin/target_region/server.py:527-534 | a target's non-empty storage class overrides the object's; otherwise the object keeps its original storage class |
| `TargetServer.Requests` | bin/target_region/server.py:500-563 | an object sends at most one upload per target |
| `TargetServer.UploadObjectToTargets` | bin/target_region/server.py:447-575 | no local path, a missing file or an empty target list give False with nothing sent; no target in this region gives True with nothing sent; otherwise every current-region target is attempted and the result is True iff each has a bucket and accepts the upload and its tags |
| `TargetServer.SelectRegionTargets` | bin/target_region/server.py:476-488 | the loop over targets keeps exactly the current-region targets, in order |
| `TargetServer.UploadToEach` | bin/target_region/server.py:500-563 | the loop goes on after a failed target: the result is True iff every target is served, and the requests are one per target with a bucket, in order |
| `TargetServer.RequestsPerTarget` | bin/target_region/server.py:508-556 | a request is sent iff it is the request of some target that names a bucket: the target's bucket, the object's key, the resolved storage class, the target's KMS key and the object's tags |
| `TargetServer.AllTargetsAttempted` | bin/target_region/server.py:500-563 | when every target names a bucket, each receives its own request, in target order, whatever earlier uploads returned |
| `TargetServer.BackupTargets` | bin/target_region/server.py:693 | backup targets are exactly the current-region targets whose backup flag is set |
| `TargetServer.NormalTargets` | bin/target_region/server.py:694 | normal targets are exactly the current-region targets whose backup flag is missing or false |
| `TargetServer.TargetsSplit` | bin/target_region/server.py:693-694 | every current-region target is a backup target or a normal target, never both: the two counts add up to the region's |
| `TargetServer.Folders` | bin/target_region/server.py:702-706 | the subfolder set holds exactly the subfolders of the manifest's entries |
| `TargetServer.GroupIndex` | bin/target_region/server.py:727-731 | the lookup finds a group with the subfolder's key when there is one and reports -1 only when no group has that key |
| `TargetServer.InFolderEmpty` | bin/target_region/server.py:727-731 | a subfolder no entry belongs to has no entries |
| `TargetServer.InFolderSnoc` | bin/target_region/server.py:728-731 | appending an entry adds it to the end of its own subfolder's list and to no other |
| `TargetServer.FoldersSnoc` | bin/target_region/server.py:702-706 | appending an entry adds exactly its subfolder to the subfolder set |
| `TargetServer.AddToGroupPartitioned` | bin/target_region/server.py:727-731 | one `defaultdict` append keeps the groups a partition: distinct keys, each holding exactly its subfolder's entries in order, one group per subfolder |
| `TargetServer.GroupsPartition` | bin/target_region/server.py:727-731 | grouping by subfolder partitions the manifest's entries: distinct keys, each group holding exactly its subfolder's entries in manifest order, and every subfolder has a group |
| `TargetServer.GroupFound` | bin/target_region/server.py:727-734 | in a partition, a subfolder has a group iff some entry belongs to it |
| `TargetServer.GroupsFound` | bin/target_region/server.py:727-734 | the grouping has a group for a subfolder iff some entry of the manifest is in that subfolder |
| `TargetServer.GroupsCount` | bin/target_region/server.py:702-734 | the slow path makes exactly as many folder groups as there are distinct subfolders |
| `TargetServer.NonEmpty` | bin/target_region/server.py:158-165 | the kept parts are exactly the non-empty ones |
| `TargetServer.BackupKeyJoin` | bin/target_region/server.py:158-165 | the four-way choice of backup key is the '/'-join of the non-empty parts among monitored prefix and subfolder, followed by the file name |
| `TargetServer.BucketsOf` | bin/target_region/server.py:416 | a catalog line lists each target's bucket, in target order, one per target |
| `TargetServer.Catalog` | bin/target_region/server.py:371-445 | a catalog file is written iff a catalog bucket is set and the manifest has entries; it goes to that bucket under the first entry's bucket, the monitored prefix and the date partitions, with one line per entry in order, every line carrying the first entry's bucket and prefix |
| `TargetServer.CatalogPathIsTargetKey` | bin/target_region/server.py:412 | the object path a catalog line records for an entry with a relative key is the key the object was uploaded under in the target bucket |
| `TargetServer.BackupRequests` | bin/target_region/server.py:169-181 | a backup sends at most one upload per backup target |
| `TargetServer.UploadBackup` | bin/target_region/server.py:288-300 | the backup upload loop goes on after a failure; the result is True iff every target names a bucket and accepts the file, and one request goes to each target with a bucket, in order |
| `TargetServer.UploadCompressedBackupDirect` | bin/target_region/server.py:146-191 | the staged archive goes unchanged to each manifest target under the backup key of a fresh '<id>.tar.zst' name; the result is as the upload loop reports, and the catalog holds the manifest's entries |
| `TargetServer.FolderMembers` | bin/target_region/server.py:217-238 | the copied members are at most one per folder entry, and each is an 'objects/' member of the staged archive |
| `TargetServer.FolderArchive` | bin/target_region/server.py:243-272 | a folder backup is a zstd level-3 archive of a tar whose first member is 'manifest.json' and whose remaining members are exactly the copied files, in order |
| `TargetServer.CreateFolderBackup` | bin/target_region/server.py:193-336 | an unreadable archive, or a folder none of whose entries is in it, gives False with nothing built, uploaded or catalogued; otherwise the folder archive is built, sent to every backup target under the folder's backup key, and catalogued with the folder's entries |
| `TargetProcessing.ReadManifest` | bin/target_region/server.py:675-685 | a manifest is read iff the archive's first 'manifest.json' member is a file holding a non-empty JSON document, and a manifest read is never empty |
| `TargetProcessing.FolderBackupOutcome` | bin/target_region/server.py:193-241 | a folder whose files are not in the staged tar sends nothing and writes no catalog; any folder sends at most one upload per backup target and at most one catalog file |
| `TargetProcessing.FolderBackups` | bin/target_region/server.py:733-741 | the slow path writes at most one catalog file per folder group |
| `TargetProcessing.IntendedBackupOutcome` | bin/target_region/server.py:697-741 | an archive without backup targets sends no backup and writes no catalog; with backup targets the backup phase runs as the code does |
| `TargetProcessing.NoBackupTargetsNoUploads` | bin/target_region/server.py:733-741 | with no backup target the folder backups upload nothing |
| `TargetProcessing.UnguardedBackupCatalogs` | bin/target_region/server.py:697-741 | as written, an archive with a single entry and no backup target, processed while a catalog bucket is set, uploads nothing yet writes a catalog file whose line lists no target bucket; the intended form writes nothing |
| `TargetProcessing.BackupFolders` | bin/target_region/server.py:733-741 | the loop over folder groups sends exactly the folder backups' uploads and catalogs, group by group |
| `TargetProcessing.CollectFolders` | bin/target_region/server.py:702-706 | the loop collects exactly the set of the entries' subfolders |
| `TargetProcessing.GroupByFolder` | bin/target_region/server.py:727-731 | the loop builds exactly the `defaultdict` grouping by subfolder, in first-seen order |
| `TargetProcessing.SingleFolder` | bin/target_region/server.py:708-710 | when the entries share one subfolder there is at least one entry and the first entry's subfolder is that one |
| `TargetProcessing.BackupPhase` | bin/target_region/server.py:697-741 | the backup phase as the code runs it, for every archive: exactly the as-written backup outcome, the staged archive as it is for one subfolder, one rebuilt archive per subfolder otherwise |
| `TargetProcessing.IntendedBackupPhase` | bin/target_region/server.py:697-741 | the corrected phase: exactly the intended outcome, nothing without backup targets and the as-written phase otherwise |
| `TargetProcessing.NoBackupTargetsNoBackupUploads` | bin/target_region/server.py:697-741 | as written, the backup phase of an archive without backup targets uploads nothing, whatever it catalogues |
| `TargetProcessing.SingleFolderOneGroup` | bin/target_region/server.py:708-741 | entries that share one subfolder form a single group holding all of them, so the fast path and the slow path would archive the same entries |
| `TargetProcessing.InFolderAll` | bin/target_region/server.py:727-731 | when every entry is in one subfolder, that subfolder's list is all entries |
| `TargetProcessing.ObjectMembers` | bin/target_region/server.py:763-764 | the object members are exactly the tar's file names other than 'manifest.json' |
| `TargetProcessing.MemberKey` | bin/target_region/server.py:799-804 | a member under 'objects/' maps to what follows that prefix; any other member name is kept whole |
| `TargetProcessing.ObjectMap` | bin/target_region/server.py:781-787 | the map's keys are exactly the non-empty relative keys of the object infos, and each key maps to one of the infos with that relative key |
| `TargetProcessing.ObjectMapLaterWins` | bin/target_region/server.py:783-787 | when two infos share a relative key, the later one is the one looked up |
| `TargetProcessing.BuildObjectMap` | bin/target_region/server.py:781-787 | the loop builds exactly the object map |
| `TargetProcessing.MemberOutcome` | bin/target_region/server.py:806-832 | a member is uploaded iff its relative key is in the object map |
| `TargetProcessing.MemberUploads` | bin/target_region/server.py:798-832 | the streaming loop records at most one result per member |
| `TargetProcessing.MemberResultsAllTrue` | bin/target_region/server.py:798-859 | no result is False iff every member the manifest knows was uploaded successfully |
| `TargetProcessing.MemberResultsPresent` | bin/target_region/server.py:798-859 | there is a result iff at least one member of the tar is known to the manifest |
| `TargetProcessing.UploadMembers` | bin/target_region/server.py:789-844 | the streaming loop sends exactly the uploads and records exactly the results of the members the manifest knows, member by member, skipping the others |
| `TargetProcessing.NoBackupTargetsArchiveUploadsNoBackup` | bin/target_region/server.py:697-741 | an archive without backup targets in this region sends no backup upload, although the backup phase still runs for it |
| `TargetProcessing.ProcessArchive` | bin/target_region/server.py:649-888 | one archive is skipped on a failed download, decompression or manifest read; otherwise it goes through the backup phase as written (for every archive, whether or not it has backup targets), then deleted from staging when no normal target remains, or unpacked and uploaded with the staging object deleted only when there were results and all were True |
| `TargetProcessing.StagingDeletedOnlyWhenDelivered` | bin/target_region/server.py:744-888 | the staging object is deleted only when no normal target is in this region, or at least one member was uploaded and every member the manifest knows reached every current-region target |
| `TargetProcessing.FailedArchiveKept` | bin/target_region/server.py:655-685 | a failed download, decompression or manifest read sends nothing, writes no catalog and keeps the staging object |
| `TargetProcessing.Archives` | bin/target_region/server.py:649-888 | the batch has one archive outcome per announced archive |
| `TargetProcessing.ArchivesEach` | bin/target_region/server.py:649-888 | archive i's outcome depends only on its own download and its own ids: a failing archive does not change the others' |
| `TargetProcessing.ProcessArchives` | bin/target_region/server.py:649-888 | the loop over archives yields exactly each archive's outcome, with the backup phase as written, in order |
| `TargetProcessing.ProcessMessageBatch` | bin/target_region/server.py:578-908 | an empty receive returns 0; test events are deleted at once; an all-test batch counts every message; a batch announcing no archive counts its regular messages and deletes none; otherwise every archive is processed, with the backup phase run for each as the code does, and the regular messages are deleted and counted |
| `TargetProcessing.BatchDeletesEveryMessage` | bin/target_region/server.py:601-897 | a batch that announces archives asks for every received message to be deleted exactly once, whatever happened to the archives, and returns the number of regular messages |
| `TargetProcessing.BatchCountBounded` | bin/target_region/server.py:595-897 | the count returned is between 0 and the messages received, and is 0 only for an empty receive |
| `ConfigUtils.DestBuckets` | s3_cross_region_compressor/utils/config_utils.py:65-68 | a rule's destination buckets are read iff every destination names a bucket (otherwise the lookup raises) |
| `ConfigUtils.DestBucketsMembership` | s3_cross_region_compressor/utils/config_utils.py:65-68 | a bucket is a destination of a rule iff one of its destinations names it |
| `ConfigUtils.BuildGraph` | s3_cross_region_compressor/utils/config_utils.py:46-68 | the graph is built iff every destination of every rule names a bucket |
| `ConfigUtils.GraphNodes` | s3_cross_region_compressor/utils/config_utils.py:46-57 | the graph's nodes are exactly the rules' (bucket, prefix) source keys, a null or absent prefix read as '' |
| `ConfigUtils.GraphEdges` | s3_cross_region_compressor/utils/config_utils.py:46-68 | a node has an edge to a bucket iff some rule with that source key replicates into that bucket |
| `ConfigUtils.FormsLoop` | s3_cross_region_compressor/utils/config_utils.py:71-106 | two nodes loop iff each replicates into the other's bucket and their prefixes are equal or one of them is empty |
| `ConfigUtils.FormsLoopSymmetric` | s3_cross_region_compressor/utils/config_utils.py:71-106 | whether two nodes loop does not depend on which is compared first |
| `ConfigUtils.DifferentPrefixesNeverLoop` | s3_cross_region_compressor/utils/config_utils.py:94-97 | two different non-empty prefixes never loop, whatever the edges |
| `ConfigUtils.LoopVerdictOfRules` | s3_cross_region_compressor/utils/config_utils.py:20-120 | a loop is reported whenever two rules with different source keys replicate into each other's buckets with equal prefixes or an empty one |
| `ConfigUtils.LoopVerdictHasWitness` | s3_cross_region_compressor/utils/config_utils.py:20-120 | conversely, a reported loop always comes from two such rules |
| `ConfigUtils.BucketRulesEnumerateGraph` | s3_cross_region_compressor/utils/config_utils.py:59-62 | the (bucket, prefix) pairs of `bucket_rules` are exactly the graph's nodes |
| `ConfigUtils.FindPartnerInBucket` | s3_cross_region_compressor/utils/config_utils.py:112-118 | the innermost loop finds a partner iff one of the bucket's prefixes, other than the node itself, forms a loop with it |
| `ConfigUtils.FindPartner` | s3_cross_region_compressor/utils/config_utils.py:111-118 | the two inner loops find a partner iff some other node of the graph forms a loop with the given one |
| `ConfigUtils.FindLoopInBucket` | s3_cross_region_compressor/utils/config_utils.py:110-118 | a bucket's loop finds a loop iff one of its prefixes forms a loop with some other node |
| `ConfigUtils.FindLoop` | s3_cross_region_compressor/utils/config_utils.py:109-120 | the nested loops return True iff some node of the graph forms a loop with another |
| `ConfigUtils.AddEdges` | s3_cross_region_compressor/utils/config_utils.py:65-68 | a rule's destinations add exactly its destination buckets to its node's edges, or fail when one has no bucket |
| `ConfigUtils.DetectReplicationLoops` | s3_cross_region_compressor/utils/config_utils.py:20-120 | the answer is exactly the loop verdict of the configuration's rules, no rules meaning no loop |
| `ConfigUtils.AddRuleToGraph` | s3_cross_region_compressor/utils/config_utils.py:47-68 | one rule of the graph-building pass: a destination without a bucket stops the pass; otherwise the rule's node gains exactly its destination buckets, and its prefix is appended to its bucket's list, which is opened empty, with the bucket at the end of the key order, when the bucket is new |
| `ConfigUtils.TwoWayGraph` | test_loop_detection.py:3-35 | two rules that replicate into each other's buckets give a graph of two nodes, each pointing at the other's bucket |
| `ConfigUtils.DifferentPrefixesExample` | test_loop_detection.py:105-107 | 'historic' against 'CanadaBackup' is no loop |
| `ConfigUtils.SamePrefixExample` | test_loop_detection.py:109-111 | 'shared' on both sides is a loop |
| `ConfigUtils.EmptyPrefixExample` | test_loop_detection.py:113-115 | no prefix on one side against 'CanadaBackup' is a loop |
| `ConfigUtils.DestRegions` | s3_cross_region_compressor/utils/config_utils.py:156 | the destination regions are read iff every destination names a region, and then they are those regions, one per destination, in order |
| `ConfigUtils.GroupByRegion` | s3_cross_region_compressor/utils/config_utils.py:149-171 | the grouping succeeds iff every rule's destinations name their regions, and then its keys are listed once each, in first-seen order |
| `ConfigUtils.GroupedByRegion` | s3_cross_region_compressor/utils/config_utils.py:149-171 | a region is a key iff some rule comes from it, and its list holds the entries of exactly the rules from that region, in rule order |
| `ConfigUtils.EntriesForAbsent` | s3_cross_region_compressor/utils/config_utils.py:149-171 | a region no rule comes from has no entries |
| `ConfigUtils.GroupingCountsEveryRule` | s3_cross_region_compressor/utils/config_utils.py:152-169 | every rule lands in exactly one list: the lists hold as many entries as there are rules |
| `ConfigUtils.GroupConfigurationsBySourceRegion` | s3_cross_region_compressor/utils/config_utils.py:123-171 | given the loaded document or the rule list itself, the result is exactly the grouping of its rules by source region |
| `ConfigUtils.AddRule` | s3_cross_region_compressor/utils/config_utils.py:152-169 | one rule of the loop: a destination without a region adds nothing (the lookup raises); otherwise the rule's region list is opened empty when the region is new, its region goes to the end of the key order, and the rule's entry is appended to that list |
| `S3Utils.NormalizedPrefix` | s3_cross_region_compressor/utils/s3_utils.py:33 | the normalised prefix starts with the prefix, ends with '/', and is at most one character longer |
| `S3Utils.NormalizedPrefixIdempotent` | s3_cross_region_compressor/utils/s3_utils.py:33 | a prefix that already ends with '/' is left alone, so normalising twice is normalising once |
| `S3Utils.BuildNotificationFilter` | s3_cross_region_compressor/utils/s3_utils.py:13-38 | no filter iff prefix and suffix are both empty; otherwise the filter has a prefix iff one was given (normalised to a folder) and a suffix iff one was given (as given) |
| `S3Utils.NotifiesExactly` | s3_cross_region_compressor/utils/s3_utils.py:13-38 | the filter lets a key through iff it lies inside the prefix folder (when a prefix is given) and ends with the suffix (when one is given) |
| `S3Utils.SiblingFolderNotNotified` | s3_cross_region_compressor/utils/s3_utils.py:31-34 | for prefix 'logs' the sibling key 'logs-old/x' does not notify |
| `S3Utils.AddReplicationRule` | s3_cross_region_compressor/utils/s3_utils.py:95-131 | a replication rule is enabled, filters on the prefix with the given priority, and replicates delete markers and KMS-encrypted objects |
| `S3Utils.BucketArnFields` | s3_cross_region_compressor/utils/s3_utils.py:119 | the destination ARN parses as service 's3' with no region or account and the destination bucket as its resource |
| `S3Utils.InboundKeyArnFields` | s3_cross_region_compressor/utils/s3_utils.py:118 | the replica key ARN parses as service 'kms' in the target region and account with the 'alias/inbound' resource |
| `S3Utils.ReplicationRuleTargets` | s3_cross_region_compressor/utils/s3_utils.py:118-126 | the rule's destination ARN names the destination bucket and its key ARN the target region and account it was built for |
| `SqsNames.Sanitized` | s3_cross_region_compressor/source_service_stack.py:168-181 | the sanitised name is as long as the input, with each valid character kept in place and every other one replaced by '-' |
| `SqsNames.SanitizeSqsName` | s3_cross_region_compressor/source_service_stack.py:168-181 | the loop builds exactly the sanitised name |
| `SqsNames.SanitizedAllValid` | s3_cross_region_compressor/source_service_stack.py:172-179 | a sanitised name holds only characters SQS accepts |
| `SqsNames.SanitizedKeepsValid` | s3_cross_region_compressor/source_service_stack.py:172-179 | a name of valid characters passes through unchanged |
| `SqsNames.SanitizedIdempotent` | s3_cross_region_compressor/source_service_stack.py:168-181 | sanitising twice is sanitising once |
| `SqsNames.SanitizedConcat` | s3_cross_region_compressor/source_service_stack.py:175-179 | sanitising works character by character, so it distributes over concatenation |
| `SqsNames.SanitizedReplacesSeparator` | s3_cross_region_compressor/source_service_stack.py:175-179 | an invalid character between two valid parts becomes a single '-' |
| `SqsNames.SanitizedCollides` | s3_cross_region_compressor/source_service_stack.py:168-184 | two different identifiers that differ only in an invalid character get the same sanitised name, hence the same queue |
| `SqsNames.SourceQueueName` | s3_cross_region_compressor/resources/sqs.py:43 | the source queue's name 'source-{sanitised id}' holds only valid characters |
| `SqsNames.DeadLetterQueueName` | s3_cross_region_compressor/resources/sqs.py:31 | the dead-letter queue's name '{queue id}-dlq' holds only valid characters |
| `SqsNames.QueueNamesDistinct` | s3_cross_region_compressor/resources/sqs.py:28-43 | a source queue never shares its name with its own dead-letter queue, nor with the dead-letter queue of a source id of the same length |
| `SqsNames.BackfillNameIsDeployedName` | s3_cross_region_compressor/lambda/s3-object-filter-to-sqs/s3-object-filter-to-sqs.py:287-290 | the unsanitised name the backfill function addresses is the deployed queue name whenever bucket and prefix use only valid characters |
| `SqsNames.DottedBucketNamesDiverge` | s3_cross_region_compressor/source_baseline_stack.py:202-207 | for a bucket with a dot in its name the backfill function addresses a queue that was not deployed under that name |
| `BackfillLambda.Filtered` | s3_cross_region_compressor/lambda/s3-object-filter-to-sqs/s3-object-filter-to-sqs.py:317-346 | filtering keeps at most the listed items |
| `BackfillLambda.FilteredMembership` | s3_cross_region_compressor/lambda/s3-object-filter-to-sqs/s3-object-filter-to-sqs.py:317-346 | an item is kept iff it is listed and passes every filter: not a folder marker, under the prefix, with the suffix, modified within the set epoch bounds |
| `BackfillLambda.NoFiltersKeepsFiles` | s3_cross_region_compressor/lambda/s3-object-filter-to-sqs/s3-object-filter-to-sqs.py:322-344 | with every filter falsy (None, '' or 0) every listed file is kept, in order |
| `BackfillLambda.FilteredSnoc` | s3_cross_region_compressor/lambda/s3-object-filter-to-sqs/s3-object-filter-to-sqs.py:317-346 | one more listed item extends the kept list by that item iff it passes |
| `BackfillLambda.DropReason` | s3_cross_region_compressor/lambda/s3-object-filter-to-sqs/s3-object-filter-to-sqs.py:322-344 | an item has a reason to be dropped iff it fails a filter |
| `BackfillLambda.FilterObjects` | s3_cross_region_compressor/lambda/s3-object-filter-to-sqs/s3-object-filter-to-sqs.py:299-357 | the loop keeps exactly the passing items, in order, and every other item is counted under exactly one drop reason |
| `BackfillLambda.FirstParent` | s3_cross_region_compressor/lambda/s3-object-filter-to-sqs/s3-object-filter-to-sqs.py:250-257 | the parent found is the first listed non-empty configured prefix the runtime prefix starts with, and none is found iff there is no such prefix |
| `BackfillLambda.FindBestMatchingPrefix` | s3_cross_region_compressor/lambda/s3-object-filter-to-sqs/s3-object-filter-to-sqs.py:220-267 | no configured prefixes give ''; otherwise the choice is always one of the configured prefixes |
| `BackfillLambda.BestPrefixChoice` | s3_cross_region_compressor/lambda/s3-object-filter-to-sqs/s3-object-filter-to-sqs.py:238-267 | an exact match wins; otherwise the first listed parent of the runtime prefix; otherwise the catch-all '' when configured; otherwise the first entry |
| `BackfillLambda.FirstParentNotLongest` | s3_cross_region_compressor/lambda/s3-object-filter-to-sqs/s3-object-filter-to-sqs.py:250-257 | the first parent listed wins, not the longest: 'data/2024/x' against ['data', 'data/2024'] gives 'data' |
| `BackfillLambda.PrefixesOf` | s3_cross_region_compressor/lambda/s3-object-filter-to-sqs/s3-object-filter-to-sqs.py:189-200 | at most one configured prefix is read per scanned name |
| `BackfillLambda.ConfiguredPrefixes` | s3_cross_region_compressor/lambda/s3-object-filter-to-sqs/s3-object-filter-to-sqs.py:190-200 | the loop reads exactly the prefixes of the scanned names, in scan order |
| `BackfillLambda.PrefixesOfMembership` | s3_cross_region_compressor/lambda/s3-object-filter-to-sqs/s3-object-filter-to-sqs.py:196-200 | the prefix a scanned name yields is among the configured prefixes |
| `BackfillLambda.BaseNameParts` | s3_cross_region_compressor/lambda/s3-object-filter-to-sqs/s3-object-filter-to-sqs.py:196-198 | a name '/{stack}/{bucket}' splits on '/' into '', the stack and the bucket |
| `BackfillLambda.SplitPieces` | s3_cross_region_compressor/lambda/s3-object-filter-to-sqs/s3-object-filter-to-sqs.py:196 | a name without '/' is a single piece, and one with a '/' splits into at least two |
| `BackfillLambda.SeededNameParses` | s3_cross_region_compressor/lambda/s3-object-filter-to-sqs/s3-object-filter-to-sqs.py:196-200 | a bucket's catch-all parameter name reads back as prefix '', a single-segment prefix reads back as itself, and a prefix of several segments is dropped |
| `BackfillLambda.NonEmpty` | s3_cross_region_compressor/lambda/s3-object-filter-to-sqs/s3-object-filter-to-sqs.py:619 | the prefixes kept for sorting are exactly the non-empty configured ones |
| `BackfillLambda.Insert` | s3_cross_region_compressor/lambda/s3-object-filter-to-sqs/s3-object-filter-to-sqs.py:619 | inserting into the sorted list adds exactly that prefix |
| `BackfillLambda.InsertDescending` | s3_cross_region_compressor/lambda/s3-object-filter-to-sqs/s3-object-filter-to-sqs.py:619 | inserting into a longest-first list keeps it longest-first |
| `BackfillLambda.ByLength` | s3_cross_region_compressor/lambda/s3-object-filter-to-sqs/s3-object-filter-to-sqs.py:619 | the sort is a permutation of the non-empty prefixes |
| `BackfillLambda.ByLengthDescending` | s3_cross_region_compressor/lambda/s3-object-filter-to-sqs/s3-object-filter-to-sqs.py:619 | the sort puts longer prefixes first |
| `BackfillLambda.FirstMatch` | s3_cross_region_compressor/lambda/s3-object-filter-to-sqs/s3-object-filter-to-sqs.py:628-632 | the match found is a listed prefix the key starts with, and none is found only when the key starts with no listed prefix |
| `BackfillLambda.FirstMatchLongest` | s3_cross_region_compressor/lambda/s3-object-filter-to-sqs/s3-object-filter-to-sqs.py:619-632 | on the longest-first list the first match is at least as long as any prefix of the key |
| `BackfillLambda.GroupOf` | s3_cross_region_compressor/lambda/s3-object-filter-to-sqs/s3-object-filter-to-sqs.py:623-641 | an object's group is one of the configured prefixes or 'UNMATCHED' |
| `BackfillLambda.GroupIsLongestMatch` | s3_cross_region_compressor/lambda/s3-object-filter-to-sqs/s3-object-filter-to-sqs.py:614-641 | an object joins the longest non-empty configured prefix its key starts with; failing that the catch-all '' when configured; failing that 'UNMATCHED' |
| `BackfillLambda.Members` | s3_cross_region_compressor/lambda/s3-object-filter-to-sqs/s3-object-filter-to-sqs.py:623-641 | a group holds at most the listed objects |
| `BackfillLambda.MembersMembership` | s3_cross_region_compressor/lambda/s3-object-filter-to-sqs/s3-object-filter-to-sqs.py:623-641 | each object is in exactly one group: the one its key selects |
| `BackfillLambda.MembersSnoc` | s3_cross_region_compressor/lambda/s3-object-filter-to-sqs/s3-object-filter-to-sqs.py:623-641 | one more object is appended to its own group and to no other |
| `BackfillLambda.MatchGroup` | s3_cross_region_compressor/lambda/s3-object-filter-to-sqs/s3-object-filter-to-sqs.py:625-641 | the inner search over the longest-first prefixes, then the catch-all, then 'UNMATCHED', picks exactly the object's group |
| `BackfillLambda.GroupObjectsByPrefix` | s3_cross_region_compressor/lambda/s3-object-filter-to-sqs/s3-object-filter-to-sqs.py:601-648 | the groups are keyed by exactly the configured prefixes and 'UNMATCHED', and each group holds exactly its objects in input order |
| `BackfillLambda.QueueNameInjective` | s3_cross_region_compressor/lambda/s3-object-filter-to-sqs/s3-object-filter-to-sqs.py:287-290 | within one bucket, two prefixes with the same queue name are the same prefix |
| `BackfillLambda.StripDashes` | s3_cross_region_compressor/lambda/s3-object-filter-to-sqs/s3-object-filter-to-sqs.py:127 | stripping '-' from both ends keeps only characters of the input and leaves no '-' at either end |
| `BackfillLambda.SanitizedPrefix` | s3_cross_region_compressor/lambda/s3-object-filter-to-sqs/s3-object-filter-to-sqs.py:127 | the fallback's prefix text has no '/' or '_' and no '-' at either end |
| `BackfillLambda.SanitizedPrefixKeepsCleanPrefix` | s3_cross_region_compressor/lambda/s3-object-filter-to-sqs/s3-object-filter-to-sqs.py:127 | a prefix with no '/' or '_' and no '-' at either end is kept as it is |
| `BackfillLambda.SanitizedPrefixIdempotent` | s3_cross_region_compressor/lambda/s3-object-filter-to-sqs/s3-object-filter-to-sqs.py:127 | sanitising the fallback prefix twice is sanitising it once |
| `BackfillLambda.FallbackAgreesOnCleanPrefix` | s3_cross_region_compressor/lambda/s3-object-filter-to-sqs/s3-object-filter-to-sqs.py:112-137 | for a clean prefix the fallback queue name is the queue name the discovery builds |
| `BackfillLambda.SyntheticEventReachesAgent` | s3_cross_region_compressor/lambda/s3-object-filter-to-sqs/s3-object-filter-to-sqs.py:359-408 | the source agent reads a synthetic event as an ordinary upload of exactly the listed bucket and key, not as a test event |
| `BackfillLambda.Events` | s3_cross_region_compressor/lambda/s3-object-filter-to-sqs/s3-object-filter-to-sqs.py:431-437 | a batch carries one message body per object |
| `BackfillLambda.Chunks` | s3_cross_region_compressor/lambda/s3-object-filter-to-sqs/s3-object-filter-to-sqs.py:421-426 | the objects go out in ceil(n/10) batches of one to ten objects |
| `BackfillLambda.ChunksConcat` | s3_cross_region_compressor/lambda/s3-object-filter-to-sqs/s3-object-filter-to-sqs.py:425-426 | the batches put back together are the objects in order: none lost, none repeated |
| `BackfillLambda.EveryObjectCounted` | s3_cross_region_compressor/lambda/s3-object-filter-to-sqs/s3-object-filter-to-sqs.py:447-462 | with answers that account for their batch, each object is counted once, as sent or as failed, a raised call counting its whole batch as failed |
| `BackfillLambda.SentAndFailedCoverObjects` | s3_cross_region_compressor/lambda/s3-object-filter-to-sqs/s3-object-filter-to-sqs.py:410-465 | sent plus failed is the object count, so the number reported sent never exceeds the objects |
| `BackfillLambda.ChunksFrom` | s3_cross_region_compressor/lambda/s3-object-filter-to-sqs/s3-object-filter-to-sqs.py:425-426 | the batch starting at i is objects[i:i+10], followed by the batches of the rest |
| `BackfillLambda.SendToSqsBatch` | s3_cross_region_compressor/lambda/s3-object-filter-to-sqs/s3-object-filter-to-sqs.py:410-465 | the loop sends one call per batch of ten and sums the successful and failed counts of the answers |
| `BackfillLambda.ScannedAsWritten` | s3_cross_region_compressor/lambda/s3-object-filter-to-sqs/s3-object-filter-to-sqs.py:169-183 | as written, the scan returns exactly the table's names that begin with '/{stack}/{bucket}', with no separator required after the bucket |
| `BackfillLambda.Scanned` | s3_cross_region_compressor/lambda/s3-object-filter-to-sqs/s3-object-filter-to-sqs.py:169-183 | the corrected scan returns exactly the bucket's own name and the names one '/' below it |
| `BackfillLambda.ScanTakesNeighbourBucket` | s3_cross_region_compressor/lambda/s3-object-filter-to-sqs/s3-object-filter-to-sqs.py:173-200 | as written, scanning for bucket 'data' returns the catch-all entry of bucket 'data-archive', which reads as a catch-all prefix of 'data'; the corrected scan returns nothing |
| `BackfillLambda.UnderQueryParts` | s3_cross_region_compressor/lambda/s3-object-filter-to-sqs/s3-object-filter-to-sqs.py:196-200 | a name the corrected scan returns has the queried stack and bucket as its second and third parts |
| `BackfillLambda.ScannedNamesBelongToBucket` | s3_cross_region_compressor/lambda/s3-object-filter-to-sqs/s3-object-filter-to-sqs.py:173-200 | the corrected scan returns a seeded parameter name iff it was seeded for the queried bucket |
| `BackfillLambda.UnderQueryBeginsWith` | s3_cross_region_compressor/lambda/s3-object-filter-to-sqs/s3-object-filter-to-sqs.py:169-183 | every name the corrected scan returns is returned by the scan as written too |
| `BackfillLambda.ScansAgreeWithoutNeighbours` | s3_cross_region_compressor/lambda/s3-object-filter-to-sqs/s3-object-filter-to-sqs.py:169-183 | the scan as written and the corrected scan return the same names in the same order whenever no name continues the query with a character other than '/' |
| `BackfillLambda.DiscoverQueueUrl` | s3_cross_region_compressor/lambda/s3-object-filter-to-sqs/s3-object-filter-to-sqs.py:139-218 | discovery, over the scan as written, gives no URL (it raises) iff the table name is unset; every other failure falls back to a URL |
| `BackfillLambda.NeighbourEntryRedirectsDiscovery` | s3_cross_region_compressor/lambda/s3-object-filter-to-sqs/s3-object-filter-to-sqs.py:169-212 | as written, for bucket 'data' and runtime prefix 'logs', a table holding only '/s/data-archive' sends to 'source-data', not to the fallback queue name |
| `BackfillLambda.DiscoverFindsDeployedPrefix` | s3_cross_region_compressor/lambda/s3-object-filter-to-sqs/s3-object-filter-to-sqs.py:139-212 | a runtime prefix that a rule of the bucket was deployed with is sent to that rule's queue URL |
| `BackfillLambda.DiscoverSqsQueueUrl` | s3_cross_region_compressor/lambda/s3-object-filter-to-sqs/s3-object-filter-to-sqs.py:139-218 | the method computes exactly the discovered URL, over the scan as written |
| `BackfillLambda.ConfiguredPrefixesOf` | s3_cross_region_compressor/lambda/s3-object-filter-to-sqs/s3-object-filter-to-sqs.py:543-592 | nothing (it raises) iff the table name is unset or the scan raises; otherwise a list holding the prefix of every table name that begins with '/{stack}/{bucket}' and has three or four parts |
| `BackfillLambda.Dedup` | s3_cross_region_compressor/lambda/s3-object-filter-to-sqs/s3-object-filter-to-sqs.py:614-615 | the dictionary's keys are the configured prefixes, each once |
| `BackfillLambda.GroupOrder` | s3_cross_region_compressor/lambda/s3-object-filter-to-sqs/s3-object-filter-to-sqs.py:614-615 | the grouping iterates over exactly its keys, each once |
| `BackfillLambda.GroupsOfAt` | s3_cross_region_compressor/lambda/s3-object-filter-to-sqs/s3-object-filter-to-sqs.py:601-648 | each key of the grouping holds exactly that group's objects |
| `BackfillLambda.DistributeCovers` | s3_cross_region_compressor/lambda/s3-object-filter-to-sqs/s3-object-filter-to-sqs.py:514-527 | every non-empty group is handed off to its prefix's queue |
| `BackfillLambda.DistributeOnlyOwnQueue` | s3_cross_region_compressor/lambda/s3-object-filter-to-sqs/s3-object-filter-to-sqs.py:514-527 | a hand-off that holds an object goes to the queue of that object's group |
| `BackfillLambda.RoutedToGroupQueue` | s3_cross_region_compressor/lambda/s3-object-filter-to-sqs/s3-object-filter-to-sqs.py:499-541 | each object is handed to the queue of its group (longest configured prefix, else the catch-all, else the queue named for 'UNMATCHED') together with its group, and to no other queue |
| `BackfillLambda.DistributeBounded` | s3_cross_region_compressor/lambda/s3-object-filter-to-sqs/s3-object-filter-to-sqs.py:514-527 | with consistent answers the multi-queue total never exceeds the objects handed off |
| `BackfillLambda.GroupSizesOfMembers` | s3_cross_region_compressor/lambda/s3-object-filter-to-sqs/s3-object-filter-to-sqs.py:514-527 | the sizes of the handed-off groups are the sizes of the groups' members |
| `BackfillLambda.MemberSizesSnoc` | s3_cross_region_compressor/lambda/s3-object-filter-to-sqs/s3-object-filter-to-sqs.py:623-641 | after one more object, exactly the group it joins grows by one |
| `BackfillLambda.GroupSizesCount` | s3_cross_region_compressor/lambda/s3-object-filter-to-sqs/s3-object-filter-to-sqs.py:614-641 | the groups together hold each object exactly once |
| `BackfillLambda.MemberSizesCount` | s3_cross_region_compressor/lambda/s3-object-filter-to-sqs/s3-object-filter-to-sqs.py:623-641 | the member counts over every group add up to the objects |
| `BackfillLambda.MemberSizesEmpty` | s3_cross_region_compressor/lambda/s3-object-filter-to-sqs/s3-object-filter-to-sqs.py:614-615 | with no objects every group is empty |
| `BackfillLambda.SendToQueuesBounded` | s3_cross_region_compressor/lambda/s3-object-filter-to-sqs/s3-object-filter-to-sqs.py:467-541 | whichever mode, the messages reported sent never exceed the objects |
| `BackfillLambda.DistributeGroups` | s3_cross_region_compressor/lambda/s3-object-filter-to-sqs/s3-object-filter-to-sqs.py:514-527 | the loop over groups in dictionary order sends exactly the hand-offs of the non-empty groups |
| `BackfillLambda.SendToMultipleSqsQueues` | s3_cross_region_compressor/lambda/s3-object-filter-to-sqs/s3-object-filter-to-sqs.py:467-541 | with a runtime prefix, one discovered queue gets every object; otherwise the configured prefixes are read through the scan as written (none is an error) and each non-empty group goes to its prefix's queue |
| `BackfillLambda.HandlerReply` | s3_cross_region_compressor/lambda/s3-object-filter-to-sqs/s3-object-filter-to-sqs.py:13-110 | the reply is 400 iff the execution block, the items or the bucket is missing; a reply of no matches reports the listed count |
| `BackfillLambda.HandlerCountsBounded` | s3_cross_region_compressor/lambda/s3-object-filter-to-sqs/s3-object-filter-to-sqs.py:62-89 | a 200 that sent messages reports at least one and at most all listed objects as filtered, and no more sent than filtered |
| `BackfillLambda.LambdaHandler` | s3_cross_region_compressor/lambda/s3-object-filter-to-sqs/s3-object-filter-to-sqs.py:13-110 | the handler replies exactly as the reply function does, with queues discovered through the scan as written: 400 for a missing input key, 200 with no matches, 500 when sending raises, otherwise 200 with the counts and the per-queue totals |

## Left out

- AWS calls are not modelled as protocols. Every S3, SQS, DynamoDB, STS and CloudWatch call is a collaborator whose answer is a parameter. Receive visibility, long polling and client construction are not modelled.
- Library formats are not interpreted. zstd, tar, JSON and URL-decoding are collaborators. The byte sizes they produce are parameters (`Codec`), and so is the decoding function `unquote`.
- Floating point is modelled as `real`. No claim is made about IEEE rounding. Python's unbounded `int` needs no width.
- Randomness, uuids, `time.time()` and dates are parameters.
- Logging, EMF metric emission and the `metric_scope`/`track_processing_time` wrappers are not modelled. Only the values reported and which reports are made are modelled.
- The process scaffolding is not modelled: the agents' infinite polling loops, sleeps and signal handlers. One batch of each loop is modelled.
- Concurrency is not modelled. The source agent's thread-pool download fan-out is a sequential, order-preserving map. Cross-process atomicity of the settings store's read-then-update is not verified.
- Temporary-directory creation and its fallbacks are not modelled. A batch's temporary directory is a parameter.
- The target pipeline is followed on values, not on the disk. The downloaded archive is a value, and extracting a member listed in it always succeeds. Files left in the shared temporary directory by an earlier archive of the same batch are not modelled, and neither is the deletion of the tar file after the uploads.
- The target pipeline does not record the decompression metrics it reports after a fully successful archive. Those values are modelled by `TargetMetrics`.
- The catalog file is modelled as the value written. Whether its own upload succeeds is not recorded, because the code ignores that result.
- The legacy `upload_compressed_backup` is not modelled because nothing calls it. The unreachable block after the `return` in `create_folder_backup` is not modelled either.
- `group_configurations_by_source_region` is given an already loaded configuration. Loading from a file path (`get_config`) is file I/O. A dictionary without a 'replication_configuration' key would be iterated over its keys; that case is not modelled.
- The CDK stacks and resources are not modelled, apart from the queue names they build and the names of the parameters they seed. The cost-estimator custom resource and the CPU benchmark are not modelled because they wrap foreign services and wall-clock timing.
- `SourceAwsUtils.ObjectMetadata`: a failed tag request leaves the tags as an empty list. The code leaves an empty dictionary, and both flatten to no tags downstream.
- `BackfillLambda.SyntheticEventReachesAgent`: the synthetic event's time, ETag, size and random request ids are not modelled, because the agents never read them.
- `BackfillLambda.DiscoverQueueUrl`: an STS or session failure while building the fallback URL is not modelled. The region and the account are parameters.
- `BackfillLambda.HandlerReply`: the only 500 modelled is a failed send. A malformed listed item cannot occur, because items are typed.
- `CostBenefitCalculator.NewCalculator`: a malformed or empty DATA_TRANSFER_COST or FARGATE_COST_PER_MINUTE value, on which `float()` raises, is not modelled. A cost factor is either absent or a number.
- Tests that describe an API absent from the code are not modelled: optimistic-concurrency retries, `occasionally_test_new_level` and a 2 GiB memory fallback.

## Findings

| source | as written | input that shows it | evidently intended | confidence | as-written member | corrected member |
|---|---|---|---|---|---|---|
| bin/target_region/server.py:697-741 | only the log line is inside `if backup_targets:`; the subfolder grouping and the backup uploads run for every archive | an archive with one entry and no backup target in this region, with CATALOG_BUCKET_NAME set: nothing is uploaded, but a catalog file is written that lists the entry with no target bucket | only archives with backup targets in this region are backed up and catalogued | high (reading of the indentation; not executed) | `TargetProcessing.UnguardedBackupCatalogs` | `TargetProcessing.IntendedBackupOutcome` |
| s3_cross_region_compressor/lambda/s3-object-filter-to-sqs/s3-object-filter-to-sqs.py:169-183 | the parameter scan matches names beginning with '/{stack}/{bucket}', with no '/' required after the bucket (the same at lines 566-576) | bucket 'data' in a table holding '/s/data-archive': the neighbouring bucket's catch-all entry reads as a catch-all prefix of 'data', so 'data' objects can be routed to the queue name 'source-data' | only the bucket's own name and the names one '/' below it match | high (not executed) | `BackfillLambda.ScanTakesNeighbourBucket` | `BackfillLambda.ScannedNamesBelongToBucket` |
