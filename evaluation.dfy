/** Flag evaluation (`FeatureRelease.isEnabled`) as a pure function of the
    held document, with the laws it obeys. */
module Evaluation {
  import opened Wrappers
  import opened Types
  import opened Bucketing

  /** The integers a JavaScript number holds exactly and `String(n)` prints
      in plain decimal: |n| <= Number.MAX_SAFE_INTEGER (2^53 - 1). */
  type SafeInteger = n: int | -0x1F_FFFF_FFFF_FFFF <= n <= 0x1F_FFFF_FFFF_FFFF

  /** The caller-supplied target key: a string or a whole number. */
  datatype Identifier = Text(text: string) | Number(number: SafeInteger)

  // ---------------------------------------------------------------------
  // Rendering a numeric identifier as the string JavaScript uses for it as
  // a property key and inside a template literal.

  function DigitChar(d: nat): char
    requires d < 10
  {
    ('0' as int + d) as char
  }

  /** Decimal digits of n, most significant first, without leading zeros. */
  function NatDigits(n: nat): (s: string)
    ensures |s| >= 1
    ensures forall i :: 0 <= i < |s| ==> '0' <= s[i] <= '9'
    decreases n
  {
    if n < 10 then [DigitChar(n)] else NatDigits(n / 10) + [DigitChar(n % 10)]
  }

  function DecimalString(n: int): string {
    if n < 0 then "-" + NatDigits(-n) else NatDigits(n)
  }

  /** The value of a string of decimal digits (the inverse of NatDigits). */
  function DigitsValue(s: string): nat
    requires forall i :: 0 <= i < |s| ==> '0' <= s[i] <= '9'
  {
    if s == [] then 0 else DigitsValue(s[..|s| - 1]) * 10 + (s[|s| - 1] as int - '0' as int)
  }

  lemma {:induction false} DigitsValueOfNatDigits(n: nat)
    ensures DigitsValue(NatDigits(n)) == n
    decreases n
  {
    if n >= 10 {
      var s := NatDigits(n);
      DigitsValueOfNatDigits(n / 10);
      assert s[..|s| - 1] == NatDigits(n / 10);
    }
  }

  /** The string under which an identifier is looked up in
      `individualTargets` and hashed. */
  function TargetKey(id: Identifier): string {
    match id
    case Text(s) => s
    case Number(n) => DecimalString(n)
  }

  lemma NatDigitsInjective(m: nat, n: nat)
    requires m != n
    ensures NatDigits(m) != NatDigits(n)
  {
    DigitsValueOfNatDigits(m);
    DigitsValueOfNatDigits(n);
  }

  /** Distinct numeric identifiers never share a target key, so an override
      written for one number never applies to another. */
  lemma DistinctNumbersDistinctKeys(a: SafeInteger, b: SafeInteger)
    requires a != b
    ensures TargetKey(Number(a)) != TargetKey(Number(b))
  {
    var ka, kb := DecimalString(a), DecimalString(b);
    if a < 0 && b < 0 {
      NatDigitsInjective(-a, -b);
      assert ka[1..] == NatDigits(-a);
      assert kb[1..] == NatDigits(-b);
    } else if a >= 0 && b >= 0 {
      NatDigitsInjective(a, b);
    } else if a < 0 {
      assert ka[0] == '-';
      assert '0' <= kb[0] <= '9';
    } else {
      assert kb[0] == '-';
      assert '0' <= ka[0] <= '9';
    }
  }

  // ---------------------------------------------------------------------
  // The hash input.

  /** `${featureFlagName}.${namespace ?? ''}` */
  function Salt(flag: string, ns: Option<string>): string {
    flag + "." + match ns case Some(n) => n case None => ""
  }

  /** `${salt}.${uniqueTargetKey}`, the text given to the digest. */
  function HashInput(flag: string, ns: Option<string>, key: string): string {
    Salt(flag, ns) + "." + key
  }

  /** Within one flag, two different namespaces hash the same identifier
      from different inputs, so the identifier is bucketed per namespace. */
  lemma NamespacesSaltedApart(flag: string, a: string, b: string, key: string)
    requires a != b
    ensures HashInput(flag, Some(a), key) != HashInput(flag, Some(b), key)
  {
    var p, q := flag + ".", "." + key;
    var x, y := HashInput(flag, Some(a), key), HashInput(flag, Some(b), key);
    assert x == p + a + q && y == p + b + q;
    if |a| == |b| {
      var i :| 0 <= i < |a| && a[i] != b[i];
      assert x[|p| + i] == a[i] && y[|p| + i] == b[i];
    }
  }

  /** The salt does not separate flag names from namespace names: a dot in a
      flag name can make two different (flag, namespace) pairs hash the same
      identifier identically. */
  lemma DottedNamesShareHashInput(key: string)
    ensures HashInput("a.b", Some("c"), key) == HashInput("a", Some("b.c"), key)
  {
    assert Salt("a.b", Some("c")) == "a.b.c" == Salt("a", Some("b.c"));
  }

  // ---------------------------------------------------------------------
  // Evaluation.

  /** The rule that applies to an entry for the requested namespace: the
      sub-rule when a non-empty namespace names one, otherwise the entry's
      own fields. */
  function ResolveRule(entry: Entry, ns: Option<string>): Rule {
    if SelectsSubRule(entry, ns) then entry.namespaces[ns.value] else entry.own
  }

  /** `namespace && entry[namespace]`: a non-empty namespace the entry names. */
  predicate SelectsSubRule(entry: Entry, ns: Option<string>) {
    ns.Some? && ns.value != "" && ns.value in entry.namespaces
  }

  /** The entry with the rule that `ResolveRule` picks for `ns` replaced. */
  function WithResolvedRule(entry: Entry, ns: Option<string>, rule: Rule): (e: Entry)
    ensures ResolveRule(e, ns) == rule
    ensures SelectsSubRule(e, ns) == SelectsSubRule(entry, ns)
  {
    if SelectsSubRule(entry, ns)
    then entry.(namespaces := entry.namespaces[ns.value := rule])
    else entry.(own := rule)
  }

  /** The override an individual target gives for a key, if any. */
  function Override(rule: Rule, key: string): Option<bool> {
    if rule.individualTargets.Some? && key in rule.individualTargets.value
    then Some(rule.individualTargets.value[key])
    else None
  }

  /** A resolved rule's decision for a key whose bucket is `bucket`. */
  function RuleDecision(rule: Rule, key: string, bucket: nat): bool {
    match Override(rule, key)
    case Some(v) => v
    case None =>
      match rule.releaseByPercentage
      case Some(p) => bucket < p
      case None => false
  }

  /** `isEnabled(featureFlagName, uniqueTargetKey, namespace)` against the
      document `config`. */
  function IsEnabled(config: FeatureReleaseConfig, flag: string, id: Identifier,
                     ns: Option<string>, digest: Digest): (enabled: bool)
    ensures flag !in config ==> !enabled
    ensures flag in config && Override(ResolveRule(config[flag], ns), TargetKey(id)) == Some(true) ==> enabled
    ensures flag in config && Override(ResolveRule(config[flag], ns), TargetKey(id)) == Some(false) ==> !enabled
  {
    if flag !in config then false
    else
      RuleDecision(ResolveRule(config[flag], ns), TargetKey(id), BucketFor(flag, id, ns, digest))
  }

  /** The bucket an identifier falls in for a flag and namespace. */
  function BucketFor(flag: string, id: Identifier, ns: Option<string>, digest: Digest): nat {
    Bucket(digest, HashInput(flag, ns, TargetKey(id)))
  }

  /** An override decides alone: whatever the percentage and whatever the
      digest, the result is the override's value. */
  lemma OverrideWins(config: FeatureReleaseConfig, flag: string, id: Identifier,
                     ns: Option<string>, digest: Digest, p: Option<int>)
    requires flag in config
    requires Override(ResolveRule(config[flag], ns), TargetKey(id)).Some?
    ensures var rule := ResolveRule(config[flag], ns);
            var changed := WithResolvedRule(config[flag], ns, rule.(releaseByPercentage := p));
            IsEnabled(config[flag := changed], flag, id, ns, digest)
              == IsEnabled(config, flag, id, ns, digest)
              == Override(rule, TargetKey(id)).value
  {
  }

  /** Without an override, a percentage rule enables exactly the identifiers
      whose bucket is below the percentage; with neither, the flag is off. */
  lemma PercentageDecides(config: FeatureReleaseConfig, flag: string, id: Identifier,
                          ns: Option<string>, digest: Digest)
    requires flag in config
    requires Override(ResolveRule(config[flag], ns), TargetKey(id)).None?
    ensures var p := ResolveRule(config[flag], ns).releaseByPercentage;
            (IsEnabled(config, flag, id, ns, digest)
             <==> p.Some? && BucketFor(flag, id, ns, digest) < p.value)
  {
  }

  /** Percentage 0 (or less) enables nobody and 100 (or more) everybody,
      unless an override says otherwise. */
  lemma PercentageEdges(config: FeatureReleaseConfig, flag: string, id: Identifier,
                        ns: Option<string>, digest: Digest)
    requires flag in config
    requires Override(ResolveRule(config[flag], ns), TargetKey(id)).None?
    requires ResolveRule(config[flag], ns).releaseByPercentage.Some?
    ensures ResolveRule(config[flag], ns).releaseByPercentage.value <= 0
            ==> !IsEnabled(config, flag, id, ns, digest)
    ensures ResolveRule(config[flag], ns).releaseByPercentage.value >= 100
            ==> IsEnabled(config, flag, id, ns, digest)
  {
  }

  /** The entry `{ releaseByPercentage: p }`. */
  function FlatPercentage(p: int): Entry {
    Entry(Rule(Some(p), None), map[])
  }

  /** With the flag's entry replaced by `{ releaseByPercentage: p }`, the
      identifier is enabled exactly when p exceeds its bucket. */
  lemma ThresholdIsBucket(config: FeatureReleaseConfig, flag: string, id: Identifier,
                          ns: Option<string>, digest: Digest, p: int)
    ensures IsEnabled(config[flag := FlatPercentage(p)], flag, id, ns, digest)
            <==> p > BucketFor(flag, id, ns, digest)
  {
  }

  /** Raising the percentage of the rule that decides an identifier without
      an override (flat or namespaced, with or without other targets) never
      turns it off. */
  lemma MonotoneInPercentage(config: FeatureReleaseConfig, flag: string, id: Identifier,
                             ns: Option<string>, digest: Digest, p: int, q: int)
    requires flag in config
    requires Override(ResolveRule(config[flag], ns), TargetKey(id)).None?
    requires p <= q
    ensures var rule := ResolveRule(config[flag], ns);
            IsEnabled(config[flag := WithResolvedRule(config[flag], ns, rule.(releaseByPercentage := Some(p)))], flag, id, ns, digest)
            ==> IsEnabled(config[flag := WithResolvedRule(config[flag], ns, rule.(releaseByPercentage := Some(q)))], flag, id, ns, digest)
  {
  }

  /** A non-empty namespace that names a sub-rule selects that sub-rule. */
  lemma NamespaceSelectsSubRule(config: FeatureReleaseConfig, flag: string, id: Identifier,
                                ns: string, digest: Digest)
    requires flag in config && ns != "" && ns in config[flag].namespaces
    ensures IsEnabled(config, flag, id, Some(ns), digest)
            == RuleDecision(config[flag].namespaces[ns], TargetKey(id), BucketFor(flag, id, Some(ns), digest))
  {
  }

  /** An absent namespace, the empty namespace and a namespace the entry does
      not name all read the entry's own fields; the empty namespace and no
      namespace even hash alike. */
  lemma NamespaceFallsThrough(config: FeatureReleaseConfig, flag: string, id: Identifier,
                              ns: Option<string>, digest: Digest)
    requires flag in config
    requires ns.None? || ns.value == "" || ns.value !in config[flag].namespaces
    ensures IsEnabled(config, flag, id, ns, digest)
            == RuleDecision(config[flag].own, TargetKey(id), BucketFor(flag, id, ns, digest))
    ensures ns == Some("") ==> IsEnabled(config, flag, id, ns, digest) == IsEnabled(config, flag, id, None, digest)
  {
  }

  /** A rule with neither targets nor percentage is off for everybody; in
      particular a purely namespaced entry asked for a namespace it lacks. */
  lemma EmptyRuleDisabled(config: FeatureReleaseConfig, flag: string, id: Identifier,
                          ns: Option<string>, digest: Digest)
    requires flag in config && ResolveRule(config[flag], ns) == EmptyRule
    ensures !IsEnabled(config, flag, id, ns, digest)
  {
  }

  /** Evaluation reads only the flag's own entry: documents that agree on it
      give the same answer. */
  lemma OnlyTheFlagsEntryMatters(c1: FeatureReleaseConfig, c2: FeatureReleaseConfig, flag: string,
                                 id: Identifier, ns: Option<string>, digest: Digest)
    requires flag in c1 <==> flag in c2
    requires flag in c1 ==> c1[flag] == c2[flag]
    ensures IsEnabled(c1, flag, id, ns, digest) == IsEnabled(c2, flag, id, ns, digest)
  {
  }
}
