/**
 * The cost-benefit calculator: the benefit score of one compressed batch is the transfer
 * cost saved across all target regions minus the compute cost of producing it.
 * Float arithmetic is modelled with reals.
 */
module CostBenefitCalculator {
  import opened Wrappers

  /** Default price of one GiB of inter-region transfer (DATA_TRANSFER_COST). */
  const DefaultTransferCost: real := 0.02
  /** Default price of one compute minute (FARGATE_COST_PER_MINUTE). */
  const DefaultComputeCost: real := 0.000395
  /** Bytes in one GiB. */
  const GiB: real := 1073741824.0

  /** The calculator's rate fields, fixed when it is created. */
  datatype Calculator = Calculator(transferCostFactor: real, computeCostFactor: real, cpuFactor: real)

  /** The result record: level and file count echoed, plus the score. */
  datatype Metrics = Metrics(level: int, benefitScore: real, fileCount: int)

  /** `__init__`: each rate comes from its environment variable when set, else its default. */
  function NewCalculator(transferEnv: Option<real>, computeEnv: Option<real>, cpuFactor: real): (c: Calculator)
    ensures c.transferCostFactor == (if transferEnv.Some? then transferEnv.value else DefaultTransferCost)
    ensures c.computeCostFactor == (if computeEnv.Some? then computeEnv.value else DefaultComputeCost)
    ensures c.cpuFactor == cpuFactor
  {
    Calculator(transferEnv.GetOr(DefaultTransferCost), computeEnv.GetOr(DefaultComputeCost), cpuFactor)
  }

  /** `max(0, original - compressed)` */
  function BytesSaved(originalSize: int, compressedSize: int): (saved: int)
    ensures saved >= 0 && saved >= originalSize - compressedSize
    ensures saved == 0 || saved == originalSize - compressedSize
  {
    if originalSize - compressedSize > 0 then originalSize - compressedSize else 0
  }

  /** Compute minutes, with 2.5% overhead, priced per minute. */
  function ComputeCost(c: Calculator, processingTime: real): real {
    processingTime * 1.025 * c.computeCostFactor / 60.0
  }

  /** Saved GiB priced per GiB, once per target region. */
  function TransferSavings(c: Calculator, bytesSaved: int, numRegions: int): real {
    (bytesSaved as real) * c.transferCostFactor / GiB * (numRegions as real)
  }

  /** `calculate_metrics` */
  function CalculateMetrics(c: Calculator, level: int, originalSize: int, compressedSize: int,
                            processingTime: real, numRegions: int, fileCount: int): (m: Metrics)
    ensures m.level == level && m.fileCount == fileCount
    ensures m.benefitScore + ComputeCost(c, processingTime) ==
            TransferSavings(c, BytesSaved(originalSize, compressedSize), numRegions)
  {
    var saved := BytesSaved(originalSize, compressedSize);
    var computeCost := ComputeCost(c, processingTime);
    var transfer := TransferSavings(c, saved, numRegions);
    Metrics(level, transfer - computeCost, fileCount)
  }

  /** Without any size reduction the score is exactly the negated compute cost. */
  lemma NoReductionCostsCompute(c: Calculator, level: int, originalSize: int, compressedSize: int,
                                processingTime: real, numRegions: int, fileCount: int)
    requires compressedSize >= originalSize
    ensures CalculateMetrics(c, level, originalSize, compressedSize, processingTime, numRegions, fileCount).benefitScore
            == -ComputeCost(c, processingTime)
  {
  }

  /** Neither the file count nor the stored CPU factor affects the score. */
  lemma ScoreIgnoresFileCountAndCpu(c: Calculator, cpu2: real, level: int, originalSize: int, compressedSize: int,
                                    processingTime: real, numRegions: int, files1: int, files2: int)
    ensures CalculateMetrics(c, level, originalSize, compressedSize, processingTime, numRegions, files1).benefitScore
            == CalculateMetrics(c.(cpuFactor := cpu2), level, originalSize, compressedSize, processingTime, numRegions, files2).benefitScore
  {
  }

  /** With non-negative rates the score falls as processing time grows. */
  lemma ScoreNonIncreasingInTime(c: Calculator, level: int, originalSize: int, compressedSize: int,
                                 t1: real, t2: real, numRegions: int, fileCount: int)
    requires c.computeCostFactor >= 0.0 && t1 <= t2
    ensures CalculateMetrics(c, level, originalSize, compressedSize, t2, numRegions, fileCount).benefitScore
            <= CalculateMetrics(c, level, originalSize, compressedSize, t1, numRegions, fileCount).benefitScore
  {
    assert (t2 - t1) * 1.025 * c.computeCostFactor >= 0.0;
  }

  /** With non-negative rates the score grows with the number of target regions. */
  lemma ScoreNonDecreasingInRegions(c: Calculator, level: int, originalSize: int, compressedSize: int,
                                    processingTime: real, n1: int, n2: int, fileCount: int)
    requires c.transferCostFactor >= 0.0 && n1 <= n2
    ensures CalculateMetrics(c, level, originalSize, compressedSize, processingTime, n1, fileCount).benefitScore
            <= CalculateMetrics(c, level, originalSize, compressedSize, processingTime, n2, fileCount).benefitScore
  {
    var perRegion := (BytesSaved(originalSize, compressedSize) as real) * c.transferCostFactor / GiB;
    assert perRegion >= 0.0;
    assert perRegion * (n2 as real) - perRegion * (n1 as real) == perRegion * ((n2 - n1) as real);
  }
}
