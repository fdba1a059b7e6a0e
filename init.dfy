/** The two entry points and the single module-level slot they share: at
    most one FeatureRelease is ever stored, and only after it was built. */
module Init {
  import opened Wrappers
  import opened Types
  import opened Errors
  import opened Lifecycle

  /** The module-level `featureFlagInstance` variable. */
  class InstanceSlot {
    var featureFlagInstance: Option<FeatureRelease>

    constructor ()
      ensures featureFlagInstance == None
    {
      featureFlagInstance := None;
    }

    /** `initFeatureRelease(config)`: builds an instance without options
        (so it never polls) and stores it, unless the slot is already filled
        or the document is rejected; a failure leaves the slot as it was. */
    method InitFeatureRelease(config: FeatureReleaseConfig) returns (r: Result<FeatureRelease, ErrorCode>)
      modifies this
      ensures old(featureFlagInstance).Some? ==>
                r == Failure(AlreadyInitialized) && featureFlagInstance == old(featureFlagInstance)
      ensures old(featureFlagInstance).None? && !ValidConfig(config) ==>
                r == Failure(IncorrectConfig) && featureFlagInstance == None
      ensures old(featureFlagInstance).None? && ValidConfig(config) ==>
                r.Success? && fresh(r.value) && featureFlagInstance == Some(r.value)
      ensures r.Success? ==>
                r.value.Valid() && r.value.featureReleaseConfig == config
                && r.value.options == None && r.value.timer == None
    {
      if featureFlagInstance.None? {
        r := FeatureRelease.Create(config, None);
        if r.Success? {
          featureFlagInstance := Some(r.value);
        }
        return;
      }
      r := Failure(AlreadyInitialized);
    }

    /** `initFeatureReleaseAsync(...)`: checks the slot before downloading;
        downloads and validates the document, then builds an instance with
        the given URL and polling options and stores it. A filled slot or a
        failed download leaves the slot as it was. */
    method InitFeatureReleaseAsync(hostedConfigUrl: string, enableConfigPolling: Option<bool>,
                                   pollingIntervalInSeconds: Option<int>, fetch: Fetcher)
      returns (r: Result<FeatureRelease, ErrorCode>)
      modifies this
      ensures old(featureFlagInstance).Some? ==>
                r == Failure(AlreadyInitialized) && featureFlagInstance == old(featureFlagInstance)
      ensures var d := DownloadHostedFeatureReleaseConfig(hostedConfigUrl, fetch);
              old(featureFlagInstance).None? && d.Failure? ==>
                r == Failure(CannotDownloadConfig) && featureFlagInstance == None
      ensures var d := DownloadHostedFeatureReleaseConfig(hostedConfigUrl, fetch);
              old(featureFlagInstance).None? && d.Success? ==>
                r.Success? && fresh(r.value) && featureFlagInstance == Some(r.value)
                && r.value.featureReleaseConfig == d.value
      ensures r.Success? ==>
                var o := WithDefaults(Some(FeatureReleaseOptions(hostedConfigUrl, enableConfigPolling, pollingIntervalInSeconds)));
                r.value.Valid() && r.value.options == o
                && r.value.timer == (if PollsOnConstruction(o) then Some(TimerFor(o.value)) else None)
    {
      if featureFlagInstance.None? {
        var downloaded := DownloadHostedFeatureReleaseConfig(hostedConfigUrl, fetch);
        if downloaded.Failure? {
          return Failure(downloaded.error);
        }
        var options := FeatureReleaseOptions(hostedConfigUrl, enableConfigPolling, pollingIntervalInSeconds);
        r := FeatureRelease.Create(downloaded.value, Some(options));
        if r.Success? {
          featureFlagInstance := Some(r.value);
        }
        return;
      }
      r := Failure(AlreadyInitialized);
    }
  }

  /** Local and remote initialisation share the one slot: once either has
      succeeded, a later call to either entry point is refused and the
      stored instance stays. */
  method SharedSlot(slot: InstanceSlot, config: FeatureReleaseConfig, hostedConfigUrl: string,
                    fetch: Fetcher, remoteFirst: bool)
    returns (first: Result<FeatureRelease, ErrorCode>, local: Result<FeatureRelease, ErrorCode>,
             remote: Result<FeatureRelease, ErrorCode>)
    modifies slot
    ensures first.Success? ==> local == Failure(AlreadyInitialized) && remote == Failure(AlreadyInitialized)
    ensures first.Success? ==> slot.featureFlagInstance == Some(first.value)
  {
    if remoteFirst {
      first := slot.InitFeatureReleaseAsync(hostedConfigUrl, None, None, fetch);
    } else {
      first := slot.InitFeatureRelease(config);
    }
    local := slot.InitFeatureRelease(config);
    remote := slot.InitFeatureReleaseAsync(hostedConfigUrl, None, None, fetch);
  }
}
