/** Backpressure settings and what NewService makes of them. */
module Config {
  const DROP_NEWEST := "drop_newest"
  const DROP_OLDEST := "drop_oldest"

  datatype BackpressureConfig = BackpressureConfig(
    channelCapacity: int, workerCount: int, dropPolicy: string, highWatermark: real)

  const DEFAULT_BACKPRESSURE := BackpressureConfig(10_000, 0, DROP_NEWEST, 0.8)

  function EffectiveWorkers(c: BackpressureConfig): int {
    if c.workerCount > 0 then c.workerCount else 0
  }

  /** Any policy but drop_oldest rejects the incoming job. */
  predicate Evicts(c: BackpressureConfig) {
    c.dropPolicy == DROP_OLDEST
  }

  function Normalize(cfg: BackpressureConfig, numCpu: nat): BackpressureConfig {
    var c := if cfg.channelCapacity <= 0 then DEFAULT_BACKPRESSURE else cfg;
    var workers := EffectiveWorkers(c);
    BackpressureConfig(
      c.channelCapacity,
      if workers <= 0 then numCpu * 2 else workers,
      if c.dropPolicy == "" then DROP_NEWEST else c.dropPolicy,
      if c.highWatermark <= 0.0 then 0.8 else c.highWatermark)
  }

  /** What the service runs with, in terms of what was configured: a positive
      capacity is kept; a non-positive one discards the whole configuration, drop
      policy included. */
  lemma NormalizeUsable(cfg: BackpressureConfig, numCpu: nat)
    requires numCpu > 0
    ensures var c := Normalize(cfg, numCpu);
            var kept := cfg.channelCapacity > 0;
            && c.channelCapacity == (if kept then cfg.channelCapacity else 10_000)
            && c.workerCount == (if kept && cfg.workerCount > 0 then cfg.workerCount else numCpu * 2)
            && c.highWatermark == (if kept && cfg.highWatermark > 0.0 then cfg.highWatermark else 0.8)
            && (Evicts(c) <==> kept && cfg.dropPolicy == "drop_oldest")
            && (kept && cfg.dropPolicy != "" ==> c.dropPolicy == cfg.dropPolicy)
            && c.channelCapacity > 0 && c.workerCount > 0 && c.highWatermark > 0.0
            && (c.workerCount == cfg.workerCount <==>
                cfg.workerCount > 0 && (cfg.channelCapacity > 0 || cfg.workerCount == numCpu * 2))
            && Normalize(c, numCpu) == c
  {
    assert DROP_OLDEST[5] != DROP_NEWEST[5];
  }
}
