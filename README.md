# feature-release, modelled in Dafny

A model of the feature-flag evaluation engine of `feature-release`. The
system decides if a feature is on for a target identifier. It reads one
configuration document, keyed by flag name. Each flag can have a
percentage rollout, explicit per-identifier overrides, or both, and can
also hold sub-rules per namespace.

The model covers:

- **Evaluation** (`Evaluation.IsEnabled`). It is a pure function of the
  document, the flag name, the identifier and the optional namespace. It
  follows the source's four steps:
  1. An unknown flag is off.
  2. A non-empty namespace that names a sub-rule selects it; otherwise the
     entry's own fields apply.
  3. An individual target for the identifier's string form decides alone.
  4. Otherwise a percentage `p` enables the identifier when its bucket is
     below `p`. With neither rule, the flag is off.
- **Bucketing** (`Bucketing`). The bucket reads the first 8 hex characters
  of the digest of `flag.namespace.identifier` as a number and takes it
  modulo 100. MD5 is not modelled. The digest function is a parameter of
  type `Digest` (any function to 32 hex characters), so every law holds
  for every digest.
- **The instance** (`Lifecycle.FeatureRelease`). This class holds the
  document, the defaulted options and the polling timer. It has:
  - construction with validation;
  - wholesale replacement of the document;
  - the polling start guard;
  - one polling tick. A successful download replaces the document; a
    failed one leaves it unchanged.
  The class function `IsEnabled` evaluates against the document it holds.
- **The singleton gate** (`Init.InstanceSlot`). This is the module-level
  slot shared by `initFeatureRelease` and `initFeatureReleaseAsync`. It is
  filled only by a successful construction. Once filled, both entry points
  refuse with `ERROR_ALREADY_INITIALIZED`.

The entry of a flag has no tag saying if it is flat or namespaced. The
model therefore gives each entry both readings: `Entry(own, namespaces)`
holds its own rule fields and its sub-rules keyed by namespace.

A downloaded document that fails validation surfaces as
`ERROR_CANNOT_DOWNLOAD_CONFIG`, not `ERROR_INCORRECT_CONFIG`: the catch in
`downloadHostedFeatureReleaseConfig` (src/lib/feature-release.ts:46-53)
rewraps every error, the validation error included. The model keeps this
(`Lifecycle.DownloadHostedFeatureReleaseConfig`).

Modules: `Wrappers` (Option, Result, Outcome), `Errors` (the four error
codes of src/errors/feature-release-error.ts), `Types` (src/types.ts),
`Bucketing`, `Evaluation`, `Lifecycle` and `Init` (src/index.ts).

## Model

| member | source | states |
|---|---|---|
| Bucketing.HexValueBound | src/lib/feature-release.ts:132 | a string of n hex digits reads as a number below 16^n |
| Bucketing.PrefixValue | src/lib/feature-release.ts:132 | the first 8 hex characters of the digest read as a number below 2^32, so the value is an exact non-negative integer |
| Bucketing.BucketOf | src/lib/feature-release.ts:132-133 | the bucket `remain` of a digest lies in [0, 99] |
| Bucketing.Bucket | src/lib/feature-release.ts:128-133 | for every digest function and every hash input, the bucket lies in [0, 99] |
| Bucketing.HexValueOfToHex | src/lib/feature-release.ts:132 | the hex-prefix parse inverts the fixed-width hex rendering of any number below 16^width |
| Bucketing.EveryBucketReachable | src/lib/feature-release.ts:133-135 | each bucket 0..99 is the bucket of some digest, so each percentage step admits new buckets |
| Evaluation.DigitsValueOfNatDigits | src/lib/feature-release.ts:120-130 | reading back the decimal form of a numeric identifier gives the number again |
| Evaluation.NatDigitsInjective | src/lib/feature-release.ts:120-130 | distinct naturals have distinct decimal forms |
| Evaluation.DistinctNumbersDistinctKeys | src/lib/feature-release.ts:120 | distinct numeric identifiers, negative ones included, never share a target key |
| Evaluation.NamespacesSaltedApart | src/lib/feature-release.ts:127-130 | within one flag, two different namespaces hash the same identifier from different inputs |
| Evaluation.DottedNamesShareHashInput | src/lib/feature-release.ts:127-130 | the salt does not separate flag from namespace: flag `a.b` with namespace `c` hashes exactly like flag `a` with namespace `b.c` |
| Evaluation.IsEnabled | src/lib/feature-release.ts:97-139 | an unknown flag is off; an override for the identifier in the resolved rule gives exactly its value |
| Evaluation.OverrideWins | src/lib/feature-release.ts:120-123 | with an override present, changing the resolved rule's percentage to anything leaves the result equal to the override |
| Evaluation.PercentageDecides | src/lib/feature-release.ts:120-138 | without an override, the flag is on iff a percentage is set and the identifier's bucket is below it |
| Evaluation.PercentageEdges | src/lib/feature-release.ts:125-135 | without an override, percentage 0 (or less) is off and 100 (or more) is on, for every identifier and digest |
| Evaluation.ThresholdIsBucket | tests/namespaced-feature-release.test.ts:125-145 | with the flag's entry replaced by `{ releaseByPercentage: p }`, the identifier is on iff p exceeds its bucket |
| Evaluation.WithResolvedRule | src/lib/feature-release.ts:113-118 | replacing the rule an entry resolves to for a namespace makes that namespace resolve to exactly the new rule, and does not change whether a sub-rule is selected |
| Evaluation.MonotoneInPercentage | src/lib/feature-release.ts:120-135 | for an identifier without an override in the resolved rule (flat or namespaced, other targets allowed), raising that rule's percentage from p to q >= p never turns it off |
| Evaluation.NamespaceSelectsSubRule | src/lib/feature-release.ts:114-115 | a non-empty namespace that names a sub-rule is decided by that sub-rule alone |
| Evaluation.NamespaceFallsThrough | src/lib/feature-release.ts:114-118 | no namespace, the empty namespace, or an unknown namespace all use the entry's own fields; the empty namespace gives the same answer as none |
| Evaluation.EmptyRuleDisabled | src/lib/feature-release.ts:138 | a resolved rule with neither targets nor percentage is off for every identifier |
| Evaluation.OnlyTheFlagsEntryMatters | src/lib/feature-release.ts:102-103 | two documents that agree on a flag's entry give the same answer for that flag |
| Lifecycle.FeatureRelease.IsEnabled | src/lib/feature-release.ts:97-139 | evaluated against the held document: an unknown flag is off; an override for the identifier in the resolved rule gives exactly its value |
| Lifecycle.WithDefaults | src/lib/feature-release.ts:26-30 | options are kept or left absent; a missing polling flag becomes false; a missing interval becomes 60; an explicit 0 is kept |
| Lifecycle.ValidateConfig | src/lib/feature-release.ts:76-90 | a percentage outside [0, 100], at top level or in any namespaced sub-rule, rejects the whole document with ERROR_INCORRECT_CONFIG; that is the only error; a document whose every percentage lies in [0, 100] passes |
| Lifecycle.DownloadHostedFeatureReleaseConfig | src/lib/feature-release.ts:37-54 | succeeds with the fetched document iff the fetch succeeds and the document is valid; every failure, validation included, is ERROR_CANNOT_DOWNLOAD_CONFIG |
| Lifecycle.FeatureRelease.constructor | src/lib/feature-release.ts:25-34 | stores the document and the defaulted options; a timer exists iff polling is enabled, the URL is non-empty and the interval is non-zero |
| Lifecycle.FeatureRelease.Create | src/lib/feature-release.ts:19-35 | construction succeeds iff the document is valid, else fails with ERROR_INCORRECT_CONFIG; on success the new instance holds the document, the defaulted options and the right timer |
| Lifecycle.FeatureRelease.StartPollingConfig | src/lib/feature-release.ts:56-74 | with a timer set, fails with ERROR_CONFIG_POLLING_ALREADY_STARTED and changes nothing; otherwise creates a timer for the URL and interval exactly when both are set |
| Lifecycle.FeatureRelease.PollTick | src/lib/feature-release.ts:67-72 | a successful download replaces the document; a failed one leaves it as it was, so a valid document stays valid; the timer is untouched |
| Lifecycle.FeatureRelease.UpdateFeatureReleaseConfig | src/lib/feature-release.ts:91-95 | the document becomes the argument, unvalidated; options and timer are unchanged |
| Init.InstanceSlot.constructor | src/index.ts:6 | the slot starts empty |
| Init.InstanceSlot.InitFeatureRelease | src/index.ts:8-22 | with an empty slot and a valid document, a fresh instance without options or timer is stored and returned; an invalid document gives ERROR_INCORRECT_CONFIG and the slot stays empty; a filled slot gives ERROR_ALREADY_INITIALIZED and keeps its instance |
| Init.InstanceSlot.InitFeatureReleaseAsync | src/index.ts:24-53 | a filled slot refuses with ERROR_ALREADY_INITIALIZED whatever the remote holds; a failed download gives ERROR_CANNOT_DOWNLOAD_CONFIG and the slot stays empty; otherwise the stored instance holds the downloaded document, the URL, the polling options and the matching timer |
| Init.SharedSlot | src/index.ts:6-53 | after either entry point succeeds, both entry points refuse and the first instance stays in the slot |

## Left out

- MD5 (Node `crypto`) is a parameter of type `Digest`. The UTF-8 encoding of the hashed text is part of that parameter.
- The HTTP GET (axios) is a parameter of type `Fetcher`: a URL maps to a parsed document or to a failure. Status codes and response bodies are not modelled.
- The validation schema is not part of this model. `ValidConfig` keeps what the failure tests show: a percentage must lie in [0, 100], at top level and in namespaced sub-rules. The document is typed, so a non-numeric percentage or a non-boolean target value cannot be written. Fractional numbers are not modelled either: percentages and intervals are integers.
- A rethrow in `validateConfig` of errors that do not come from the schema is not modelled; with a typed document there are none.
- Keys that collide with JavaScript object properties are not modelled. Examples: a namespace named `releaseByPercentage` or `individualTargets`, or a flag, namespace or identifier named after a prototype member such as `constructor`. The model keeps namespaces apart from the rule fields.
- Numeric identifiers are the safe integers, |n| <= 2^53 - 1 (`SafeInteger`), rendered in plain decimal as JavaScript's `String(n)` renders them. Larger magnitudes (where `String(n)` prints a rounded value or exponent form), fractions, NaN and infinities are not modelled.
- Timing, `setInterval` scheduling and async interleavings are not modelled. One polling tick is one method call. Two concurrent async inits both passing the empty-slot check are also not modelled, nor is the atomicity of the document swap under concurrent readers.
- The rejected promise that a failed polling tick leaves behind is not modelled. The model only records that the assignment does not happen.
- The timer handle is modelled as the URL and period it was started with; clearing a timer does not exist in the source.
- Logging (`printLog`, `setDebugMode` and the `debug` option), error message texts and the `WonStdError` class are not modelled.
- The ±1% distribution of buckets over random identifiers is statistical and is not stated. `EveryBucketReachable` only states that every bucket can occur.
