/** The `FeatureRelease` instance: the held document, the options it was
    built with, and the polling timer, with the operations that change them. */
module Lifecycle {
  import opened Wrappers
  import opened Types
  import opened Errors
  import Bucketing
  import Evaluation

  /** The polling interval used when none is given. */
  const DEFAULT_POLLING_INTERVAL_SECONDS := 60

  /** The options after defaulting: every field present. */
  datatype PollingOptions = PollingOptions(
    hostedConfigUrl: string,
    enableConfigPolling: bool,
    pollingIntervalInSeconds: int)

  /** Fills in the omitted option fields (`??` keeps an explicit 0 or false);
      no options at all stay no options. */
  function WithDefaults(options: Option<FeatureReleaseOptions>): (r: Option<PollingOptions>)
    ensures r.Some? <==> options.Some?
    ensures r.Some? ==> r.value.hostedConfigUrl == options.value.hostedConfigUrl
    ensures r.Some? ==> (r.value.enableConfigPolling <==> options.value.enableConfigPolling == Some(true))
    ensures r.Some? && options.value.pollingIntervalInSeconds.None?
            ==> r.value.pollingIntervalInSeconds == DEFAULT_POLLING_INTERVAL_SECONDS
    ensures r.Some? && options.value.pollingIntervalInSeconds.Some?
            ==> r.value.pollingIntervalInSeconds == options.value.pollingIntervalInSeconds.value
  {
    match options
    case None => None
    case Some(o) =>
      Some(PollingOptions(
        o.hostedConfigUrl,
        match o.enableConfigPolling case Some(e) => e case None => false,
        match o.pollingIntervalInSeconds case Some(s) => s case None => DEFAULT_POLLING_INTERVAL_SECONDS))
  }

  // ---------------------------------------------------------------------
  // Validation. The schema itself is not part of this model; what is
  // modelled is what it rejects in a typed document: a percentage outside
  // [0, 100], at the top level of an entry or in a namespaced sub-rule.

  predicate ValidRule(rule: Rule) {
    rule.releaseByPercentage.Some? ==> 0 <= rule.releaseByPercentage.value <= 100
  }

  predicate ValidEntry(entry: Entry) {
    ValidRule(entry.own) && forall ns :: ns in entry.namespaces ==> ValidRule(entry.namespaces[ns])
  }

  predicate ValidConfig(config: FeatureReleaseConfig) {
    forall flag :: flag in config ==> ValidEntry(config[flag])
  }

  /** `validateConfig`: passes a valid document, rejects any other with
      ERROR_INCORRECT_CONFIG, whichever entry is at fault. */
  function ValidateConfig(config: FeatureReleaseConfig): (o: Outcome<ErrorCode>)
    ensures o == Pass || o == Fail(IncorrectConfig)
    ensures (exists flag :: flag in config && !ValidRule(config[flag].own)) ==> o.Fail?
    ensures (exists flag, ns :: flag in config && ns in config[flag].namespaces
                               && !ValidRule(config[flag].namespaces[ns])) ==> o.Fail?
    ensures (forall flag :: flag in config ==>
               ValidRule(config[flag].own)
               && forall ns :: ns in config[flag].namespaces ==> ValidRule(config[flag].namespaces[ns]))
            ==> o == Pass
  {
    if ValidConfig(config) then Pass else Fail(IncorrectConfig)
  }

  /** The outcome of a GET on a URL: the parsed document, or None when the
      request fails. */
  type Fetcher = string -> Option<FeatureReleaseConfig>

  /** `downloadHostedFeatureReleaseConfig`: fetch, then validate. Every
      failure on this path, a rejected document included, surfaces as
      ERROR_CANNOT_DOWNLOAD_CONFIG. */
  function DownloadHostedFeatureReleaseConfig(url: string, fetch: Fetcher): (r: Result<FeatureReleaseConfig, ErrorCode>)
    ensures r.Success? <==> fetch(url).Some? && ValidConfig(fetch(url).value)
    ensures r.Success? ==> r.value == fetch(url).value
    ensures r.Failure? ==> r.error == CannotDownloadConfig
  {
    match fetch(url)
    case None => Failure(CannotDownloadConfig)
    case Some(config) =>
      match ValidateConfig(config)
      case Fail(_) => Failure(CannotDownloadConfig)
      case Pass => Success(config)
  }

  // ---------------------------------------------------------------------
  // The polling timer.

  /** A running `setInterval`: the URL it downloads and its period. */
  datatype Timer = Timer(url: string, intervalMs: int)

  /** Whether `startPollingConfig` creates a timer for these options: a
      non-zero interval and a non-empty URL. */
  predicate PollingConfigured(o: PollingOptions) {
    o.pollingIntervalInSeconds != 0 && o.hostedConfigUrl != ""
  }

  function TimerFor(o: PollingOptions): Timer {
    Timer(o.hostedConfigUrl, o.pollingIntervalInSeconds * 1000)
  }

  /** Whether the constructor starts polling for these options. */
  predicate PollsOnConstruction(options: Option<PollingOptions>) {
    options.Some? && options.value.enableConfigPolling && PollingConfigured(options.value)
  }

  class FeatureRelease {
    var featureReleaseConfig: FeatureReleaseConfig
    const options: Option<PollingOptions>
    var timer: Option<Timer>

    /** A timer, when there is one, polls the configured URL at the
        configured interval. */
    ghost predicate Valid()
      reads this
    {
      timer.Some? ==> options.Some? && PollingConfigured(options.value) && timer.value == TimerFor(options.value)
    }

    /** The body of the source's constructor after validation: store the
        document, default the options, maybe start polling. */
    constructor (config: FeatureReleaseConfig, rawOptions: Option<FeatureReleaseOptions>)
      requires ValidConfig(config)
      ensures Valid()
      ensures featureReleaseConfig == config
      ensures options == WithDefaults(rawOptions)
      ensures timer == if PollsOnConstruction(options) then Some(TimerFor(options.value)) else None
    {
      featureReleaseConfig := config;
      options := WithDefaults(rawOptions);
      timer := None;
      new;
      if options.Some? && options.value.enableConfigPolling && options.value.hostedConfigUrl != "" {
        var _ := StartPollingConfig();
      }
    }

    /** `new FeatureRelease(config, options)`: fails with
        ERROR_INCORRECT_CONFIG, creating nothing, when the document is
        invalid. */
    static method Create(config: FeatureReleaseConfig, rawOptions: Option<FeatureReleaseOptions>)
      returns (r: Result<FeatureRelease, ErrorCode>)
      ensures r.Success? <==> ValidConfig(config)
      ensures r.Failure? ==> r.error == IncorrectConfig
      ensures r.Success? ==> fresh(r.value) && r.value.Valid()
      ensures r.Success? ==> r.value.featureReleaseConfig == config
      ensures r.Success? ==> r.value.options == WithDefaults(rawOptions)
      ensures r.Success? ==>
                r.value.timer == (if PollsOnConstruction(r.value.options) then Some(TimerFor(r.value.options.value)) else None)
    {
      match ValidateConfig(config)
      case Fail(e) =>
        r := Failure(e);
      case Pass =>
        var instance := new FeatureRelease(config, rawOptions);
        r := Success(instance);
    }

    /** `startPollingConfig`: refuses when a timer is already set; otherwise
        starts one exactly when the interval is non-zero and a URL is set. */
    method StartPollingConfig() returns (o: Outcome<ErrorCode>)
      requires Valid()
      modifies this`timer
      ensures Valid()
      ensures old(timer).Some? ==> o == Fail(ConfigPollingAlreadyStarted) && timer == old(timer)
      ensures old(timer).None? ==> o == Pass
      ensures old(timer).None? ==>
                timer == if options.Some? && PollingConfigured(options.value) then Some(TimerFor(options.value)) else None
    {
      if timer.Some? {
        return Fail(ConfigPollingAlreadyStarted);
      }
      if options.Some? && options.value.pollingIntervalInSeconds != 0 && options.value.hostedConfigUrl != "" {
        timer := Some(TimerFor(options.value));
      }
      o := Pass;
    }

    /** One run of the polling callback: download the timer's URL; on
        success the document is replaced, on failure the assignment never
        happens and the last document stays in force. */
    method PollTick(fetch: Fetcher)
      requires timer.Some?
      modifies this`featureReleaseConfig
      ensures var d := DownloadHostedFeatureReleaseConfig(timer.value.url, fetch);
              featureReleaseConfig == if d.Success? then d.value else old(featureReleaseConfig)
      ensures ValidConfig(old(featureReleaseConfig)) ==> ValidConfig(featureReleaseConfig)
      ensures timer == old(timer)
    {
      var downloaded := DownloadHostedFeatureReleaseConfig(timer.value.url, fetch);
      if downloaded.Success? {
        featureReleaseConfig := downloaded.value;
      }
    }

    /** `updateFeatureReleaseConfig`: replaces the document wholesale,
        without validation; options and timer are untouched. */
    method UpdateFeatureReleaseConfig(config: FeatureReleaseConfig)
      modifies this`featureReleaseConfig
      ensures featureReleaseConfig == config
      ensures timer == old(timer)
    {
      featureReleaseConfig := config;
    }

    /** `isEnabled`, reading the document currently held; it only reads, so
        it changes no field. */
    function IsEnabled(flag: string, id: Evaluation.Identifier, ns: Option<string>,
                       digest: Bucketing.Digest): (enabled: bool)
      reads this
      ensures flag !in featureReleaseConfig ==> !enabled
      ensures flag in featureReleaseConfig ==>
                var o := Evaluation.Override(Evaluation.ResolveRule(featureReleaseConfig[flag], ns), Evaluation.TargetKey(id));
                o.Some? ==> enabled == o.value
    {
      Evaluation.IsEnabled(featureReleaseConfig, flag, id, ns, digest)
    }
  }
}
