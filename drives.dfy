/** The argument checks of hnn_core/drives.py that run before an external
    drive is attached to a network: the target populations named by the
    synaptic weight maps, the ranges of the timing keywords and the Poisson
    rate constants. */
module Drives {
  import opened Common

  /** The exceptions these checks raise. */
  datatype DriveError =
    | NegativeSigma
    | NonPositiveNumspikes
    | NegativeTstart(driveType: string)
    | NegativeTstop(driveType: string)
    | TstopExceedsSimEnd(driveType: string, simEndTime: real, tstop: real)
    | NegativeDuration(driveType: string)
    | ZeroBurstRate                          // `1000. / 0` raises ZeroDivisionError
    | BurstTooLong
    | MissingRates(targets: set<string>)
    | UnknownPopulations(offending: set<string>)
    | NonPositiveRate(population: string, rate: real)

  // ---------------------------------------------------------------------
  // _get_target_populations

  /** `_get_target_populations(weights_ampa, weights_nmda)`: an absent map
      becomes the empty map, and the targets are every population either
      map names. */
  function GetTargetPopulations(weightsAmpa: Option<map<string, real>>, weightsNmda: Option<map<string, real>>)
    : (r: (set<string>, map<string, real>, map<string, real>))
    ensures r.1 == (if weightsAmpa.None? then map[] else weightsAmpa.value)
    ensures r.2 == (if weightsNmda.None? then map[] else weightsNmda.value)
    ensures forall p :: p in r.0 <==> p in r.1 || p in r.2
  {
    var ampa := if weightsAmpa.None? then map[] else weightsAmpa.value;
    var nmda := if weightsNmda.None? then map[] else weightsNmda.value;
    (ampa.Keys + nmda.Keys, ampa, nmda)
  }

  // ---------------------------------------------------------------------
  // _check_drive_parameter_values

  /** The keyword arguments `_check_drive_parameter_values` looks at; `None`
      stands for a keyword that was not passed. */
  datatype DriveParams = DriveParams(
    sigma: Option<real>,
    numspikes: Option<real>,
    tstart: Option<real>,
    tstop: Option<real>,
    simEndTime: Option<real>,
    spikeIsi: Option<real>,
    burstRate: Option<real>)

  predicate SigmaOk(k: DriveParams)      { k.sigma.None? || k.sigma.value >= 0.0 }
  predicate NumspikesOk(k: DriveParams)  { k.numspikes.None? || k.numspikes.value > 0.0 }
  predicate TstartOk(k: DriveParams)     { k.tstart.None? || k.tstart.value >= 0.0 }
  predicate TstopOk(k: DriveParams)      { k.tstop.None? || k.tstop.value >= 0.0 }
  predicate WithinSimulation(k: DriveParams)
  {
    k.tstop.None? || k.simEndTime.None? || k.tstop.value <= k.simEndTime.value
  }
  predicate DurationOk(k: DriveParams)
  {
    k.tstart.None? || k.tstop.None? || k.tstop.value - k.tstart.value >= 0.0
  }
  /** The burst keywords all present. */
  predicate BurstGiven(k: DriveParams)
  {
    k.numspikes.Some? && k.spikeIsi.Some? && k.burstRate.Some?
  }
  /** A burst of `numspikes` spikes `spike_isi` apart fits in the burst
      period `1000 / burst_rate`. */
  predicate BurstFits(k: DriveParams)
    requires BurstGiven(k) && k.burstRate.value != 0.0
  {
    (k.numspikes.value - 1.0) * k.spikeIsi.value <= 1000.0 / k.burstRate.value
  }

  /** Every present keyword is in range, independently of the order in
      which the source checks them. */
  predicate DriveParamsValid(k: DriveParams)
  {
    && SigmaOk(k) && NumspikesOk(k) && TstartOk(k) && TstopOk(k)
    && WithinSimulation(k) && DurationOk(k)
    && (BurstGiven(k) ==> k.burstRate.value != 0.0 && BurstFits(k))
  }

  /** `_check_drive_parameter_values(drive_type, **kwargs)`: the checks in
      source order, each raising only when its keywords are present and all
      earlier checks passed. */
  function CheckDriveParameterValues(driveType: string, k: DriveParams): (r: Outcome<DriveError>)
    ensures r == Fail(NegativeSigma) <==> !SigmaOk(k)
    ensures r == Fail(NonPositiveNumspikes) <==> SigmaOk(k) && !NumspikesOk(k)
    ensures r == Fail(NegativeTstart(driveType)) <==> SigmaOk(k) && NumspikesOk(k) && !TstartOk(k)
    ensures r == Fail(NegativeTstop(driveType)) <==>
      SigmaOk(k) && NumspikesOk(k) && TstartOk(k) && !TstopOk(k)
    ensures r.Fail? && r.error.TstopExceedsSimEnd? <==>
      SigmaOk(k) && NumspikesOk(k) && TstartOk(k) && TstopOk(k) && !WithinSimulation(k)
    ensures SigmaOk(k) && NumspikesOk(k) && TstartOk(k) && TstopOk(k) && !WithinSimulation(k) ==>
      r == Fail(TstopExceedsSimEnd(driveType, k.simEndTime.value, k.tstop.value))
    ensures r == Fail(NegativeDuration(driveType)) <==>
      SigmaOk(k) && NumspikesOk(k) && TstartOk(k) && TstopOk(k) && WithinSimulation(k) && !DurationOk(k)
    ensures r == Fail(ZeroBurstRate) <==>
      && SigmaOk(k) && NumspikesOk(k) && TstartOk(k) && TstopOk(k) && WithinSimulation(k) && DurationOk(k)
      && BurstGiven(k) && k.burstRate.value == 0.0
    ensures r == Fail(BurstTooLong) <==>
      && SigmaOk(k) && NumspikesOk(k) && TstartOk(k) && TstopOk(k) && WithinSimulation(k) && DurationOk(k)
      && BurstGiven(k) && k.burstRate.value != 0.0 && !BurstFits(k)
    ensures r.Pass? <==> DriveParamsValid(k)
  {
    if !SigmaOk(k) then Fail(NegativeSigma)
    else if !NumspikesOk(k) then Fail(NonPositiveNumspikes)
    else if !TstartOk(k) then Fail(NegativeTstart(driveType))
    else if !TstopOk(k) then Fail(NegativeTstop(driveType))
    else if !WithinSimulation(k) then Fail(TstopExceedsSimEnd(driveType, k.simEndTime.value, k.tstop.value))
    else if !DurationOk(k) then Fail(NegativeDuration(driveType))
    else if BurstGiven(k) && k.burstRate.value == 0.0 then Fail(ZeroBurstRate)
    else if BurstGiven(k) && !BurstFits(k) then Fail(BurstTooLong)
    else Pass
  }

  /** `k` with some of the keywords of `full` left out. */
  predicate Fewer(k: DriveParams, full: DriveParams)
  {
    && (k.sigma.None? || k.sigma == full.sigma)
    && (k.numspikes.None? || k.numspikes == full.numspikes)
    && (k.tstart.None? || k.tstart == full.tstart)
    && (k.tstop.None? || k.tstop == full.tstop)
    && (k.simEndTime.None? || k.simEndTime == full.simEndTime)
    && (k.spikeIsi.None? || k.spikeIsi == full.spikeIsi)
    && (k.burstRate.None? || k.burstRate == full.burstRate)
  }

  /** An absent keyword imposes no constraint: leaving keywords out of an
      accepted call keeps it accepted, and a call with none is accepted. */
  lemma AbsentKeysImposeNothing(driveType: string, k: DriveParams, full: DriveParams)
    requires Fewer(k, full) && CheckDriveParameterValues(driveType, full).Pass?
    ensures CheckDriveParameterValues(driveType, k).Pass?
    ensures CheckDriveParameterValues(driveType, DriveParams(None, None, None, None, None, None, None)).Pass?
  {
    assert DriveParamsValid(full);
    if BurstGiven(k) {
      assert BurstGiven(full) && k.numspikes == full.numspikes && k.spikeIsi == full.spikeIsi && k.burstRate == full.burstRate;
    }
    assert DriveParamsValid(k);
  }

  /** Ten spikes 10 ms apart do not fit a 20 Hz burst period of 50 ms; at
      10 Hz (100 ms) they do. */
  lemma BurstPeriodExample(driveType: string)
    ensures CheckDriveParameterValues(driveType, DriveParams(None, Some(10.0), None, None, None, Some(10.0), Some(20.0)))
      == Fail(BurstTooLong)
    ensures CheckDriveParameterValues(driveType, DriveParams(None, Some(10.0), None, None, None, Some(10.0), Some(10.0)))
      == Pass
  {
    assert 1000.0 / 20.0 == 50.0;
    assert 1000.0 / 10.0 == 100.0;
  }

  // ---------------------------------------------------------------------
  // _check_poisson_rates

  /** The `rate_constant` argument: a dict from population to rate (in
      insertion order) or one number for every population. */
  datatype RateConstant = PerPopulation(entries: seq<(string, real)>) | Uniform(rate: real)

  function ProvidedPopulations(entries: seq<(string, real)>): (r: set<string>)
    ensures forall p :: p in r <==> exists i :: 0 <= i < |entries| && entries[i].0 == p
  {
    set i | 0 <= i < |entries| :: entries[i].0
  }

  /** The rates the last loop walks over: the dict itself, or the number
      broadcast to every cell type. */
  function Rates(rateConstant: RateConstant, allCellTypes: seq<string>): (r: seq<(string, real)>)
    ensures rateConstant.PerPopulation? ==> r == rateConstant.entries
    ensures rateConstant.Uniform? ==>
      |r| == |allCellTypes| && forall i :: 0 <= i < |r| ==> r[i] == (allCellTypes[i], rateConstant.rate)
  {
    match rateConstant
    case PerPopulation(entries) => entries
    case Uniform(v) => seq(|allCellTypes|, i requires 0 <= i < |allCellTypes| => (allCellTypes[i], v))
  }

  /** `_check_poisson_rates(rate_constant, target_populations, all_cell_types)`:
      a dict must name every target and only known cell types, checked in
      that order; a number is broadcast to every cell type; then the first
      rate that is not positive raises. */
  method CheckPoissonRates(rateConstant: RateConstant, targetPopulations: set<string>, allCellTypes: seq<string>)
    returns (r: Outcome<DriveError>)
    ensures rateConstant.PerPopulation? && !(targetPopulations <= ProvidedPopulations(rateConstant.entries)) ==>
      r == Fail(MissingRates(targetPopulations))
    ensures
      && rateConstant.PerPopulation?
      && targetPopulations <= ProvidedPopulations(rateConstant.entries)
      && !(ProvidedPopulations(rateConstant.entries) <= Known(allCellTypes))
      ==> r == Fail(UnknownPopulations(ProvidedPopulations(rateConstant.entries) - Known(allCellTypes)))
    ensures RatesAdmitted(rateConstant, targetPopulations, allCellTypes) ==>
      var rates := Rates(rateConstant, allCellTypes);
      && (r.Pass? <==> forall i :: 0 <= i < |rates| ==> rates[i].1 > 0.0)
      && (r.Fail? ==> exists i ::
            && 0 <= i < |rates| && !(rates[i].1 > 0.0)
            && r.error == NonPositiveRate(rates[i].0, rates[i].1)
            && forall j :: 0 <= j < i ==> rates[j].1 > 0.0)
  {
    if rateConstant.PerPopulation? {
      var provided := ProvidedPopulations(rateConstant.entries);
      if !(targetPopulations <= provided) {
        return Fail(MissingRates(targetPopulations));
      }
      var known := Known(allCellTypes);
      if !(provided <= known) {
        return Fail(UnknownPopulations(provided - known));
      }
    }
    var rates := Rates(rateConstant, allCellTypes);
    for i := 0 to |rates|
      invariant forall j :: 0 <= j < i ==> rates[j].1 > 0.0
    {
      if !(rates[i].1 > 0.0) {
        return Fail(NonPositiveRate(rates[i].0, rates[i].1));
      }
    }
    return Pass;
  }

  /** `all_cell_types` as a set. */
  function Known(allCellTypes: seq<string>): (r: set<string>)
    ensures forall c :: c in r <==> c in allCellTypes
  {
    set c | c in allCellTypes
  }

  /** The rate constant gets past the dict key checks. */
  predicate RatesAdmitted(rateConstant: RateConstant, targetPopulations: set<string>, allCellTypes: seq<string>)
  {
    rateConstant.PerPopulation? ==>
      && targetPopulations <= ProvidedPopulations(rateConstant.entries)
      && ProvidedPopulations(rateConstant.entries) <= Known(allCellTypes)
  }

  /** A positive number is accepted for any cell types, a non-positive one
      refused for the first cell type as soon as there is one. */
  lemma UniformRate(rate: real, allCellTypes: seq<string>)
    ensures var rates := Rates(Uniform(rate), allCellTypes);
      (forall i :: 0 <= i < |rates| ==> rates[i].1 > 0.0) <==> rate > 0.0 || |allCellTypes| == 0
  {
    var rates := Rates(Uniform(rate), allCellTypes);
    if |allCellTypes| > 0 {
      assert rates[0].1 == rate;
    }
  }
}
