/**
 * CloudWatch embedded-metric output, as values: a context is one EMF log line with its
 * dimensions and the metrics put into it.
 */
module Emf {
  /** One `put_metric` call. */
  datatype MetricValue = MetricValue(name: string, value: real, unit: string)

  /** One metric scope: its dimensions and its metrics, in the order put. */
  datatype MetricContext = MetricContext(dimensions: map<string, string>, values: seq<MetricValue>)
}

/** The source agent's compression metrics: the derived quantities and what is reported. */
module SourceMetrics {
  import opened Wrappers
  import opened Records
  import opened Emf

  /** original/compressed, and 0 when the compressed size is not positive. */
  function CompressionRatio(originalSize: int, compressedSize: int): (ratio: real)
    ensures compressedSize <= 0 ==> ratio == 0.0
    ensures compressedSize > 0 ==> ratio * compressedSize as real == originalSize as real
  {
    if compressedSize <= 0 then 0.0 else originalSize as real / compressedSize as real
  }

  /** With a positive compressed size the ratio is at least 1 exactly when the data shrank or kept its size. */
  lemma RatioAtLeastOne(originalSize: int, compressedSize: int)
    requires compressedSize > 0
    ensures CompressionRatio(originalSize, compressedSize) >= 1.0 <==> originalSize >= compressedSize
  {
    var r, c := CompressionRatio(originalSize, compressedSize), compressedSize as real;
    if r >= 1.0 {
      assert r * c >= 1.0 * c;
    }
    if originalSize >= compressedSize && r < 1.0 {
      assert r * c < 1.0 * c;
    }
  }

  /** max(0, original − compressed): never negative, and the exact saving when the data shrank. */
  function BytesSaved(originalSize: int, compressedSize: int): (saved: int)
    ensures saved >= 0 && saved >= originalSize - compressedSize
    ensures originalSize >= compressedSize ==> saved == originalSize - compressedSize
    ensures originalSize <= compressedSize ==> saved == 0
  {
    if originalSize - compressedSize > 0 then originalSize - compressedSize else 0
  }

  /** saved/original·100, and 0 when the original size is not positive. */
  function TransferEfficiency(originalSize: int, bytesSaved: int): (percent: real)
    ensures originalSize <= 0 ==> percent == 0.0
    ensures originalSize > 0 ==> percent * originalSize as real == bytesSaved as real * 100.0
  {
    if originalSize <= 0 then 0.0 else (bytesSaved as real / originalSize as real) * 100.0
  }

  /** A saving between nothing and everything is a percentage. */
  lemma EfficiencyIsPercentage(originalSize: int, bytesSaved: int)
    requires 0 <= bytesSaved <= originalSize
    ensures 0.0 <= TransferEfficiency(originalSize, bytesSaved) <= 100.0
  {
    if originalSize > 0 {
      ShareBounds(bytesSaved as real, originalSize as real);
    }
  }

  /** A part of a positive whole is a share between 0 and 1. */
  lemma ShareBounds(part: real, whole: real)
    requires 0.0 <= part <= whole && whole > 0.0
    ensures 0.0 <= part / whole <= 1.0
  {
  }

  /** The efficiency of a compression, as reported: the saving as a share of the original size. */
  lemma EfficiencyOfCompression(originalSize: int, compressedSize: int)
    requires 0 <= compressedSize
    ensures 0.0 <= TransferEfficiency(originalSize, BytesSaved(originalSize, compressedSize)) <= 100.0
  {
    if originalSize > 0 {
      EfficiencyIsPercentage(originalSize, BytesSaved(originalSize, compressedSize));
    }
  }

  const Mebibyte: real := 1048576.0

  /** MiB per second, and 0 when the time is not positive. */
  function CompressionThroughput(originalSize: int, seconds: real): (mbps: real)
    ensures seconds <= 0.0 ==> mbps == 0.0
    ensures seconds > 0.0 ==> mbps * seconds * Mebibyte == originalSize as real
  {
    if seconds <= 0.0 then 0.0 else (originalSize as real / 1024.0 / 1024.0) / seconds
  }

  /**
   * The SourcePrefix dimension: the monitored prefix when one is given (even ''), else
   * the object's prefix; an empty or absent choice is 'root'.
   */
  function PrefixDimension(monitoredPrefix: Option<string>, sourcePrefix: Option<string>): (dim: string)
    ensures dim != ""
    ensures monitoredPrefix.Some? && monitoredPrefix.value != "" ==> dim == monitoredPrefix.value
    ensures monitoredPrefix.Some? && monitoredPrefix.value == "" ==> dim == "root"
    ensures monitoredPrefix.None? ==> dim == (if Truthy(sourcePrefix) then sourcePrefix.value else "root")
  {
    var chosen := if monitoredPrefix.Some? then monitoredPrefix else sourcePrefix;
    if Truthy(chosen) then chosen.value else "root"
  }

  /** The throughput time: compression time when positive, else processing time when positive, else none. */
  function ThroughputTime(compressionTime: Option<real>, processingTime: Option<real>): (t: Option<real>)
    ensures t.Some? ==> t.value > 0.0
    ensures t.None? <==> (compressionTime.None? || compressionTime.value <= 0.0) &&
                         (processingTime.None? || processingTime.value <= 0.0)
    ensures compressionTime.Some? && compressionTime.value > 0.0 ==> t == compressionTime
  {
    if compressionTime.Some? && compressionTime.value > 0.0 then compressionTime
    else if processingTime.Some? && processingTime.value > 0.0 then processingTime
    else None
  }

  /** The bucket/prefix context: ratio, efficiency and, when a time is known, throughput. */
  function SummaryContext(sourceBucket: string, sourcePrefix: Option<string>, originalSize: int, compressedSize: int,
                          compressionTime: Option<real>, processingTime: Option<real>,
                          monitoredPrefix: Option<string>): MetricContext {
    var saved := BytesSaved(originalSize, compressedSize);
    var t := ThroughputTime(compressionTime, processingTime);
    MetricContext(
      map["SourceBucket" := sourceBucket, "SourcePrefix" := PrefixDimension(monitoredPrefix, sourcePrefix)],
      [MetricValue("CompressionRatio", CompressionRatio(originalSize, compressedSize), "None"),
       MetricValue("TransferEfficiency", TransferEfficiency(originalSize, saved), "Percent")] +
      (if t.Some? then [MetricValue("CompressionThroughput", CompressionThroughput(originalSize, t.value),
                                    "Megabytes/Second")]
       else []))
  }

  /** `report_region_metrics`: sizes and saving under bucket, target region and prefix. */
  function RegionContext(sourceBucket: string, sourcePrefix: Option<string>, region: string, originalSize: int,
                         compressedSize: int, monitoredPrefix: Option<string>): MetricContext {
    MetricContext(
      map["SourceBucket" := sourceBucket, "TargetRegion" := region,
          "SourcePrefix" := PrefixDimension(monitoredPrefix, sourcePrefix)],
      [MetricValue("OriginalSize", originalSize as real, "Bytes"),
       MetricValue("CompressedSize", compressedSize as real, "Bytes"),
       MetricValue("BytesSaved", BytesSaved(originalSize, compressedSize) as real, "Bytes")])
  }

  /** One region context per target that has a region, in target order. */
  function RegionContexts(targets: seq<Destination>, sourceBucket: string, sourcePrefix: Option<string>,
                          originalSize: int, compressedSize: int, monitoredPrefix: Option<string>)
    : (cs: seq<MetricContext>)
  {
    if |targets| == 0 then []
    else
      var t := targets[|targets| - 1];
      RegionContexts(targets[..|targets| - 1], sourceBucket, sourcePrefix, originalSize, compressedSize, monitoredPrefix) +
      (if t.region.Some? then [RegionContext(sourceBucket, sourcePrefix, t.region.value, originalSize, compressedSize,
                                             monitoredPrefix)]
       else [])
  }

  /** The number of targets that carry a region. */
  function RegionCount(targets: seq<Destination>): nat {
    if |targets| == 0 then 0
    else RegionCount(targets[..|targets| - 1]) + (if targets[|targets| - 1].region.Some? then 1 else 0)
  }

  /** One region report per target with a region. */
  lemma {:induction false} RegionReportCount(targets: seq<Destination>, sourceBucket: string, sourcePrefix: Option<string>,
                                             originalSize: int, compressedSize: int, monitoredPrefix: Option<string>)
    ensures |RegionContexts(targets, sourceBucket, sourcePrefix, originalSize, compressedSize, monitoredPrefix)| ==
            RegionCount(targets)
  {
    if |targets| > 0 {
      RegionReportCount(targets[..|targets| - 1], sourceBucket, sourcePrefix, originalSize, compressedSize, monitoredPrefix);
    }
  }

  /** Every region report names the region of one of the targets. */
  lemma {:induction false} RegionReportsNamed(targets: seq<Destination>, sourceBucket: string,
                                              sourcePrefix: Option<string>, originalSize: int, compressedSize: int,
                                              monitoredPrefix: Option<string>, c: MetricContext)
    requires c in RegionContexts(targets, sourceBucket, sourcePrefix, originalSize, compressedSize, monitoredPrefix)
    ensures "TargetRegion" in c.dimensions && exists t :: t in targets && t.region == Some(c.dimensions["TargetRegion"])
  {
    var init := targets[..|targets| - 1];
    var last := targets[|targets| - 1];
    assert last in targets;
    if c in RegionContexts(init, sourceBucket, sourcePrefix, originalSize, compressedSize, monitoredPrefix) {
      RegionReportsNamed(init, sourceBucket, sourcePrefix, originalSize, compressedSize, monitoredPrefix, c);
      var t :| t in init && t.region == Some(c.dimensions["TargetRegion"]);
      assert t in targets;
    }
  }

  /** When every target has a region, report i is for target i's region. */
  lemma {:induction false} RegionReportsAligned(targets: seq<Destination>, sourceBucket: string,
                                                sourcePrefix: Option<string>, originalSize: int, compressedSize: int,
                                                monitoredPrefix: Option<string>, i: int)
    requires forall t :: t in targets ==> t.region.Some?
    requires 0 <= i < |targets|
    ensures var cs := RegionContexts(targets, sourceBucket, sourcePrefix, originalSize, compressedSize, monitoredPrefix);
            |cs| == |targets| && "TargetRegion" in cs[i].dimensions &&
            cs[i].dimensions["TargetRegion"] == targets[i].region.value
  {
    RegionCountAll(targets);
    RegionReportCount(targets, sourceBucket, sourcePrefix, originalSize, compressedSize, monitoredPrefix);
    var init := targets[..|targets| - 1];
    forall t | t in init
      ensures t.region.Some?
    {
      assert t in targets;
    }
    RegionCountAll(init);
    RegionReportCount(init, sourceBucket, sourcePrefix, originalSize, compressedSize, monitoredPrefix);
    assert targets[|targets| - 1] in targets;
    if i < |targets| - 1 {
      RegionReportsAligned(init, sourceBucket, sourcePrefix, originalSize, compressedSize, monitoredPrefix, i);
    }
  }

  /** When every target has a region, every target is counted. */
  lemma {:induction false} RegionCountAll(targets: seq<Destination>)
    requires forall t :: t in targets ==> t.region.Some?
    ensures RegionCount(targets) == |targets|
  {
    if |targets| > 0 {
      var init := targets[..|targets| - 1];
      forall t | t in init
        ensures t.region.Some?
      {
        assert t in targets;
      }
      assert targets[|targets| - 1] in targets;
      RegionCountAll(init);
    }
  }

  /**
   * `report_compression_metrics`: the summary context, then one context per target with a
   * region; a failing metrics logger gives False and nothing reported.
   */
  function CompressionReport(sourceBucket: string, sourcePrefix: Option<string>, originalSize: int, compressedSize: int,
                             compressionTime: Option<real>, processingTime: Option<real>,
                             targets: Option<seq<Destination>>, monitoredPrefix: Option<string>, loggerFails: bool)
    : (r: (bool, seq<MetricContext>))
  {
    if loggerFails then (false, [])
    else
      (true, [SummaryContext(sourceBucket, sourcePrefix, originalSize, compressedSize, compressionTime, processingTime,
                             monitoredPrefix)] +
             RegionContexts(targets.GetOr([]), sourceBucket, sourcePrefix, originalSize, compressedSize, monitoredPrefix))
  }

  /** The reporting loop over the targets. */
  method ReportCompressionMetrics(sourceBucket: string, sourcePrefix: Option<string>, originalSize: int,
                                  compressedSize: int, compressionTime: Option<real>, processingTime: Option<real>,
                                  targets: Option<seq<Destination>>, monitoredPrefix: Option<string>, loggerFails: bool)
    returns (ok: bool, contexts: seq<MetricContext>)
    ensures (ok, contexts) == CompressionReport(sourceBucket, sourcePrefix, originalSize, compressedSize,
                                                compressionTime, processingTime, targets, monitoredPrefix, loggerFails)
  {
    if loggerFails {
      return false, [];
    }
    var summary := SummaryContext(sourceBucket, sourcePrefix, originalSize, compressedSize, compressionTime,
                                  processingTime, monitoredPrefix);
    contexts := [summary];
    var ts := targets.GetOr([]);
    var i := 0;
    while i < |ts|
      invariant 0 <= i <= |ts|
      invariant contexts == [summary] +
                            RegionContexts(ts[..i], sourceBucket, sourcePrefix, originalSize, compressedSize, monitoredPrefix)
    {
      assert ts[..i + 1][..i] == ts[..i];
      if ts[i].region.Some? {
        contexts := contexts + [RegionContext(sourceBucket, sourcePrefix, ts[i].region.value, originalSize,
                                              compressedSize, monitoredPrefix)];
      }
      i := i + 1;
    }
    assert ts[..i] == ts;
    ok := true;
  }

  /**
   * The summary reports throughput exactly when a positive compression or processing
   * time is known, preferring the compression time.
   */
  lemma ThroughputReported(sourceBucket: string, sourcePrefix: Option<string>, originalSize: int, compressedSize: int,
                           compressionTime: Option<real>, processingTime: Option<real>, monitoredPrefix: Option<string>)
    ensures var c := SummaryContext(sourceBucket, sourcePrefix, originalSize, compressedSize, compressionTime,
                                    processingTime, monitoredPrefix);
            (|c.values| == 3 <==> (compressionTime.Some? && compressionTime.value > 0.0) ||
                                  (processingTime.Some? && processingTime.value > 0.0)) &&
            (|c.values| == 3 && compressionTime.Some? && compressionTime.value > 0.0 ==>
               c.values[2].value * compressionTime.value * Mebibyte == originalSize as real)
  {
  }

  /**
   * The source agent passes its monitored prefix as a string, '' at the bucket root, so
   * every report of a root-monitoring agent is filed under 'root' whatever the object's
   * own prefix.
   */
  lemma RootAgentReportsRoot(sourceBucket: string, sourcePrefix: Option<string>, originalSize: int, compressedSize: int,
                             processingTime: Option<real>, targets: seq<Destination>)
    ensures var (_, cs) := CompressionReport(sourceBucket, sourcePrefix, originalSize, compressedSize, None,
                                            processingTime, Some(targets), Some(""), false);
            forall c :: c in cs ==> "SourcePrefix" in c.dimensions && c.dimensions["SourcePrefix"] == "root"
  {
    RegionContextsRoot(targets, sourceBucket, sourcePrefix, originalSize, compressedSize);
  }

  /** Every region context of a root-monitoring agent carries the 'root' prefix. */
  lemma {:induction false} RegionContextsRoot(targets: seq<Destination>, sourceBucket: string, sourcePrefix: Option<string>,
                                              originalSize: int, compressedSize: int)
    ensures forall c :: c in RegionContexts(targets, sourceBucket, sourcePrefix, originalSize, compressedSize, Some("")) ==>
                          "SourcePrefix" in c.dimensions && c.dimensions["SourcePrefix"] == "root"
  {
    if |targets| > 0 {
      RegionContextsRoot(targets[..|targets| - 1], sourceBucket, sourcePrefix, originalSize, compressedSize);
    }
  }
}

/** The target agent's decompression metrics. */
module TargetMetrics {
  import opened Emf
  import SourceMetrics

  /** decompressed/compressed, and 0 when the compressed size is not positive (negative sizes included). */
  function DecompressionRatio(compressedSize: int, decompressedSize: int): (ratio: real)
    ensures compressedSize <= 0 ==> ratio == 0.0
    ensures compressedSize > 0 ==> ratio * compressedSize as real == decompressedSize as real
  {
    if compressedSize <= 0 then 0.0 else decompressedSize as real / compressedSize as real
  }

  /** The target's ratio of an archive is the source's compression ratio of the same archive. */
  lemma RatioAgreesWithSource(compressedSize: int, originalSize: int)
    ensures DecompressionRatio(compressedSize, originalSize) == SourceMetrics.CompressionRatio(originalSize, compressedSize)
  {
  }

  /** 5000 bytes from 1000 is a ratio of 5; equal sizes give 1. */
  lemma DecompressionRatioExamples(n: int)
    requires n > 0
    ensures DecompressionRatio(1000, 5000) == 5.0
    ensures DecompressionRatio(n, n) == 1.0
    ensures DecompressionRatio(-n, n) == 0.0
  {
  }

  /**
   * `report_decompression_metrics`: True with one context holding the ratio and both sizes
   * under the target bucket; False with nothing when the metrics logger fails.
   */
  function DecompressionReport(targetBucket: string, compressedSize: int, decompressedSize: int, loggerFails: bool)
    : (r: (bool, seq<MetricContext>))
    ensures r.0 <==> !loggerFails
    ensures r.0 ==> |r.1| == 1 && |r.1[0].values| == 3 && r.1[0].dimensions == map["TargetBucket" := targetBucket] &&
                    r.1[0].values[0].value == DecompressionRatio(compressedSize, decompressedSize)
    ensures !r.0 ==> r.1 == []
  {
    if loggerFails then (false, [])
    else
      (true, [MetricContext(map["TargetBucket" := targetBucket],
                            [MetricValue("DecompressionRatio", DecompressionRatio(compressedSize, decompressedSize), "None"),
                             MetricValue("CompressedSize", compressedSize as real, "Bytes"),
                             MetricValue("DecompressedSize", decompressedSize as real, "Bytes")])])
  }
}
