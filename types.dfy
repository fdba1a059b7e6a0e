/** The shapes of the configuration document and of the instance options. */
module Types {
  import opened Wrappers

  /** The release policy of one flag, or of one flag within one namespace. */
  datatype Rule = Rule(
    releaseByPercentage: Option<int>,
    individualTargets: Option<map<string, bool>>)

  /** A rule with neither field: what a purely namespaced entry looks like
      when it is read as a flat rule. */
  const EmptyRule := Rule(None, None)

  /** One flag's entry. The document does not tag an entry as flat or
      namespaced, so an entry carries both readings: its own top-level rule
      fields, and the sub-rules keyed by namespace name. */
  datatype Entry = Entry(own: Rule, namespaces: map<string, Rule>)

  /** The whole document, keyed by flag name. */
  type FeatureReleaseConfig = map<string, Entry>

  /** The options as a caller passes them: polling flag and interval may be
      omitted. */
  datatype FeatureReleaseOptions = FeatureReleaseOptions(
    hostedConfigUrl: string,
    enableConfigPolling: Option<bool>,
    pollingIntervalInSeconds: Option<int>)
}
