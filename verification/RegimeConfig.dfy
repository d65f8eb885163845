/** Parameters of the change-point detector and the regime labels. */
module RegimeConfig {
  import opened Common

  datatype ObservationModel = StudentT | Gaussian

  /** Stored and hashed with the configuration; the labels use terciles whatever it says. */
  datatype BucketMethod = Tercile | Quintile

  datatype Config = Config(
    hazardRate: real,
    observationModel: ObservationModel,
    priorMu0: Option<real>,
    priorKappa0: real,
    priorAlpha0: real,
    priorBeta0: Option<real>,
    maxRunLength: int,
    volWindow: int,
    trendWindow: int,
    trendFlatEpsilon: real,
    volBucketMethod: BucketMethod,
    cpThreshold: real,
    transitionThreshold: real,
    transitionMaxRl: int,
    coldStartBurnIn: int,
    crisisPercentile: real,
    configVersion: string)
  {
    /** The checks that run when a configuration is built. */
    predicate Valid() {
      && 0.0 < hazardRate < 1.0
      && priorKappa0 > 0.0
      && priorAlpha0 > 0.0
      && (priorBeta0.Some? ==> priorBeta0.value > 0.0)
      && maxRunLength > 0
      && volWindow > 0 && trendWindow > 0
      && trendFlatEpsilon >= 0.0
      && 0.0 < cpThreshold <= 1.0
      && 0.0 < transitionThreshold <= 1.0
      && transitionMaxRl >= 0
      && coldStartBurnIn >= 0
      && 0.0 < crisisPercentile < 100.0
    }
  }
}
