# GSLB record builder and field validator, modelled in Dafny

This project models two parts of the k8gb controller.

- The **GSLB record builder** (`gslbDNSEndpoint`, `getLabels` and `updateRuntimeStatus` in
  `controllers/dnsupdate.go`). From the health of each host, the IPs the cluster exposes, the targets
  peer clusters advertise and the Gslb strategy, it computes the DNS endpoints to publish. In order:
  - it splits the local IPs into an A list and an AAAA list;
  - it rejects a host outside the delegated zone;
  - it publishes the `localtargets-<host>` pair for a healthy host;
  - it picks the final targets by strategy (round robin, geo, failover);
  - it emits one record per final IP, carrying the `strategy` label and the `weight-<tag>-<index>-<weight>` labels.
- The **field validator** of the dependency resolver (`controllers/depresolver/depresolver_validator.go`).
  A `validator` wraps one configuration value and a sticky error. The checks can be chained.

Modules:

- `Strings` (strings.dfy): Go's `strings.Contains` as a substring test. Also the decimal rendering of
  integers that `fmt.Sprintf("%v", …)` produces, with its round trip.
- `Addresses` (addresses.dfy): the IPv4 test that stands in for `net.ParseIP(s).To4() != nil`.
- `Targets` (targets.dfy): `assistant.Targets` — geo tag → ordered IP list — with `Append`,
  `AppendTargets` and `GetIPs`.
- `Labels` (labels.dfy): `getLabels`. It is an imperative method, proved equal to a map-comprehension
  specification `WeightLabels`.
- `DnsUpdate` (dnsupdate.dfy): `gslbDNSEndpoint` as a method. It is proved equal to the pure
  specification `DNSEndpoints` (the records) and `DNSStatusUpdates` (the reporter calls made), with
  lemmas about that specification.
- `Validation` (validator.dfy): `validator` as a class whose check methods update `err`. Each check is
  specified by `Verdict`, and chains of checks by `Chain`.

Inputs and modelling choices:

- **Foreign calls.** The foreign lookups are inputs to `DnsUpdate.GslbDNSEndpoint`:
  - `getServiceHealthStatus` is `serviceHealth: Result<seq<HostHealth>>`;
  - `GslbIngressExposedIPs` is `localTargets: Result<seq<string>>`;
  - `GetExternalTargets` is `external: map<string, Targets>`, where a missing host means no targets.
- **Metrics.** The metrics calls of `updateRuntimeStatus` are returned as a `StatusUpdate` value, one per host reached.
- **Strategy names.** The strategy type names are `"roundRobin"`, `"geoip"` and `"failover"`, the
  values of `depresolver.RoundRobinStrategy`, `GeoStrategy` and `FailoverStrategy` in k8gb. The model says
  nothing that depends on the spelling.
- **Zone check.** The zone check follows the code: it is a substring test (`strings.Contains`), not
  a suffix or subdomain test. `DnsUpdate.ZoneCheckIsNotSuffixCheck` shows a host that passes without ending in the zone.
- **Per-IP records.** The per-IP record block (controllers/dnsupdate.go:140-168) declares its record
  variable inside the `if`/`else` branches. It then uses that variable after them, which Go's scoping
  does not allow. The model reads the block the evident way: every record built gets the weight labels
  and is appended (`DnsUpdate.HostRecords`). The other reading is under "## Findings".

## Model

| member | source | states |
|---|---|---|
| Strings.Contains | controllers/dnsupdate.go:65 | the `strings.Contains` zone test; `ContainsIffOccurs` and `SuffixIsContained` are about this definition |
| Strings.IntToString | controllers/dnsupdate.go:212 | the `%v` rendering of an integer, with a leading `-` for a negative one; the `NatToString` lemmas and `Labels.LabelShape` are about this definition |
| Strings.ContainsIffOccurs | controllers/dnsupdate.go:65 | `Contains(s, zone)` holds exactly when `zone` occurs at some position of `s` (a substring test, not a suffix test) |
| Strings.SuffixIsContained | controllers/dnsupdate.go:65 | a host ending in the zone passes the zone check |
| Strings.NatToStringRoundTrip | controllers/dnsupdate.go:212 | the `%v` rendering of an index is a non-empty digit string that reads back as the index |
| Strings.NatToStringInjective | controllers/dnsupdate.go:212 | different indices render differently |
| Strings.TrailingDigitsAfter | controllers/dnsupdate.go:212 | digits written after a non-digit are exactly the trailing digits of the result |
| Strings.SplitTrailingNat | controllers/dnsupdate.go:212 | a number rendered after a non-digit can be split off again unambiguously |
| Addresses.IsIPv4 | controllers/dnsupdate.go:54-55 | the `ip.To4() != nil` test as a dotted-quad test; `IPv4Characters` and `ColonMeansNotIPv4` are about this definition |
| Addresses.Split | controllers/dnsupdate.go:54-55 | splitting yields at least one field |
| Addresses.SplitKeepsCharacters | controllers/dnsupdate.go:54-55 | every non-separator character lands in some field |
| Addresses.IPv4Characters | controllers/dnsupdate.go:54-55 | a literal read as IPv4 consists of digits and dots only |
| Addresses.ColonMeansNotIPv4 | controllers/dnsupdate.go:54-58 | a literal with a colon (every textual IPv6 address) is put in the AAAA list |
| Targets.Lookup | controllers/dnsupdate.go:207 | the IPs stored under a tag, empty for a missing tag; `AbsentTagHasNoIPs` and `AppendLookup` are about this definition |
| Targets.GetIPs | controllers/dnsupdate.go:133-140 | all IPs in entry order; `GetIPsMembers`, `AppendIPs` and `GetIPsDependOnLookupOnly` are about this definition |
| Targets.Append | controllers/dnsupdate.go:73-74 | `Targets.Append`; `AppendTags`, `AppendLookup`, `AppendIPs` and `AppendNewTagIPs` are about this definition |
| Targets.AppendTargets | controllers/dnsupdate.go:99 | `Targets.AppendTargets`; `AppendTargetsTags`, `AppendTargetsLookup` and `AppendTargetsIPs` are about this definition |
| Targets.AppendTags | controllers/dnsupdate.go:73-74 | `Append` adds the tag to the key set, `len` grows only for a new tag, and tags stay unique |
| Targets.AppendLookup | controllers/dnsupdate.go:73-74 | after `Append`, the tag's list ends with the appended IPs; other tags are untouched |
| Targets.AppendIPs | controllers/dnsupdate.go:73-74 | `Append` adds exactly the appended IPs (as a multiset) to `GetIPs` |
| Targets.AppendNewTagIPs | controllers/dnsupdate.go:73 | appending under a new tag puts the IPs at the end of `GetIPs` |
| Targets.AppendTargetsTags | controllers/dnsupdate.go:99 | `AppendTargets` unites the key sets and keeps tags unique |
| Targets.AppendTargetsLookup | controllers/dnsupdate.go:99 | after `AppendTargets`, each tag holds its old list followed by the other side's list |
| Targets.AppendTargetsIPs | controllers/dnsupdate.go:99 | `AppendTargets` adds exactly the other side's IPs (as a multiset) to `GetIPs` |
| Targets.GetIPsDependOnLookupOnly | controllers/dnsupdate.go:133-140 | with unique tags, which IPs `GetIPs` returns depends only on what each tag holds, not on the order of the entries |
| Targets.AbsentTagHasNoIPs | controllers/dnsupdate.go:207-210 | a tag that is not a key has no IPs |
| Targets.GetIPsMembers | controllers/dnsupdate.go:140 | with unique tags, an IP is in `GetIPs` exactly when some tag lists it |
| Labels.WeightLabel | controllers/dnsupdate.go:212 | the label key `weight-<tag>-<index>-<weight>`; `LabelShape`, `WeightLabelInjective` and `StrategyIsNotWeightLabel` are about this definition |
| Labels.WeightLabels | controllers/dnsupdate.go:204-217 | the label map as a comprehension over the weighted slots; `WeightLabelsInclude`, `WeightLabelsOnly`, `WeightLabelsAvoidStrategy` and `GetLabels` are about this definition |
| Labels.LabelShape | controllers/dnsupdate.go:212 | a weight label is its head followed by the digits of the weight's magnitude; the head ends in a dash, doubled exactly for a negative weight |
| Labels.WeightLabelInjective | controllers/dnsupdate.go:212 | different (tag, index, weight) triples never share a label key |
| Labels.WeightLabelsInjective | controllers/dnsupdate.go:212 | the same, for all triples at once |
| Labels.StrategyIsNotWeightLabel | controllers/dnsupdate.go:212 | no weight label is the key `strategy` |
| Labels.WeightLabelsInclude | controllers/dnsupdate.go:206-214 | each IP `i` of a weighted tag present in the targets gets `weight-<tag>-<i>-<weight>` mapped to that IP |
| Labels.WeightLabelsOnly | controllers/dnsupdate.go:206-214 | every label comes from a weighted tag present in the targets, and its value is that tag's IP at the label's index; weighted tags absent from the targets add nothing |
| Labels.WeightLabelsAvoidStrategy | controllers/dnsupdate.go:148-167 | merging the weight labels never overwrites the `strategy` label |
| Labels.WeightLabelsDependOnLookupOnly | controllers/dnsupdate.go:204-217 | the label map depends only on what each tag holds, not on the order of the entries |
| Labels.WeightLabelsExample | controllers/dnsupdate.go:204-217 | weights {eu: 10, us: 5} over {eu: [1.1.1.1, 1.1.1.2], us: [2.2.2.2]} give exactly weight-eu-0-10, weight-eu-1-10 and weight-us-0-5 |
| Labels.FillSlotCovers | controllers/dnsupdate.go:213 | writing a new slot's label keeps every earlier label |
| Labels.FillSlotSources | controllers/dnsupdate.go:213 | writing a new slot's label adds only that label |
| Labels.FillSlot | controllers/dnsupdate.go:213 | one write of the inner loop preserves the loop invariant `Filled` |
| Labels.FilledWithin | controllers/dnsupdate.go:204-217 | labels filled for every weight slot all appear in `WeightLabels` with the same IP |
| Labels.FilledCovers | controllers/dnsupdate.go:204-217 | labels filled for every weight slot include every key of `WeightLabels` |
| Labels.FilledIsWeightLabels | controllers/dnsupdate.go:204-217 | labels filled for every weight slot are exactly `WeightLabels` |
| Labels.SlotsBelowNext | controllers/dnsupdate.go:211 | the slots of a tag below `n + 1` are those below `n` plus slot `n` |
| Labels.LabelTag | controllers/dnsupdate.go:211-214 | the inner loop adds the labels of every IP of one weighted tag and keeps the invariant |
| Labels.GetLabels | controllers/dnsupdate.go:204-217 | walking the weight map in any order yields exactly `WeightLabels(weight, targets)` |
| DnsUpdate.IPv4Targets | controllers/dnsupdate.go:53-60 | the A list: the IPv4 literals in input order; `ClassifyPartition` and `ClassifyTargets` are about this definition |
| DnsUpdate.IPv6Targets | controllers/dnsupdate.go:53-60 | the AAAA list: the other literals in input order; `ClassifyPartition` and `ClassifyTargets` are about this definition |
| DnsUpdate.ClassifyPartition | controllers/dnsupdate.go:53-60 | each local IP lands in exactly one list (multiset union); the A list holds only IPv4, the AAAA list none |
| DnsUpdate.ClassifyTargets | controllers/dnsupdate.go:53-60 | the loop builds exactly the IPv4 and non-IPv4 sublists, each in input order |
| DnsUpdate.OwnTargets | controllers/dnsupdate.go:63-74 | the host's own targets before the strategy; `OwnTargetsShape` is about this definition |
| DnsUpdate.FinalTargets | controllers/dnsupdate.go:63-126 | the final targets after the strategy switch; `OwnTargetsKept`, `RoundRobinAndGeoAddAllExternal` and the failover lemmas are about this definition |
| DnsUpdate.OwnTargetsShape | controllers/dnsupdate.go:63-74 | a healthy host starts from one entry, the cluster tag holding the A then AAAA IPs; an unhealthy host starts from nothing |
| DnsUpdate.OwnTargetsKept | controllers/dnsupdate.go:96-131 | with no external targets, or an unknown strategy type, the host keeps its own targets |
| DnsUpdate.RoundRobinAndGeoAddAllExternal | controllers/dnsupdate.go:98-99 | round robin and geo append every external entry: each tag's list is own + external, and the IPs are own ∪ external as multisets |
| DnsUpdate.FailoverPrimaryHealthyKeepsLocal | controllers/dnsupdate.go:100-105 | failover on a healthy primary publishes only the local IPs |
| DnsUpdate.FailoverOtherwisePublishesExternal | controllers/dnsupdate.go:100-125 | failover with external targets on an unhealthy primary, or on any secondary, publishes exactly the external targets |
| DnsUpdate.FailoverSecondaryFallsBack | controllers/dnsupdate.go:96-118 | a secondary with no external targets keeps its own (healthy) IPs |
| DnsUpdate.UpdateRuntimeStatus | controllers/dnsupdate.go:192-201 | exactly one reporter per known strategy type, none otherwise; the health and final IPs are passed on, and only the failover reporter gets `isPrimary` |
| DnsUpdate.HostRecords | controllers/dnsupdate.go:139-168 | the labelled per-IP records of one host; `HostRecordsShape` and `PrefixRecords` are about this definition |
| DnsUpdate.HostEndpoints | controllers/dnsupdate.go:72-168 | all records of one host; `HostEndpointsShape` and `UnhealthyHostHasNoLocalRecords` are about this definition |
| DnsUpdate.HostStatus | controllers/dnsupdate.go:133 | the status update of one host; `AllStep` and `AddHost` are about this definition |
| DnsUpdate.DNSEndpoints | controllers/dnsupdate.go:39-170 | the result of the whole pass; `GslbDNSEndpoint`, `ZoneMismatchRejectsPass` and `OtherZoneFailsPass` are about this definition |
| DnsUpdate.DNSStatusUpdates | controllers/dnsupdate.go:39-170 | the status updates of the whole pass; `GslbDNSEndpoint` is about this definition |
| DnsUpdate.HostRecordsShape | controllers/dnsupdate.go:139-168 | one record per final IP, named after the host, with that single IP, the TTL, type A exactly for IPv4, and the `strategy` label with the weight labels merged in |
| DnsUpdate.FirstOutsideZone | controllers/dnsupdate.go:62-67 | the position of the first host that fails the zone check |
| DnsUpdate.FirstOutsideZoneAt | controllers/dnsupdate.go:62-67 | a position before which all hosts pass and at which the host fails is the one the pass stops at |
| DnsUpdate.AllStep | controllers/dnsupdate.go:62-170 | the pass over one more host adds that host's records and status update, after the earlier ones |
| DnsUpdate.MergeLabels | controllers/dnsupdate.go:165-167 | copying the weight labels in gives the base labels overridden by the weight labels |
| DnsUpdate.ResolveTargets | controllers/dnsupdate.go:63-126 | the final targets built step by step equal `FinalTargets` |
| DnsUpdate.AppendHostRecords | controllers/dnsupdate.go:139-168 | the per-IP loop appends exactly `HostRecords` of the final IPs, and nothing when there are no final targets |
| DnsUpdate.AddHost | controllers/dnsupdate.go:69-168 | one loop iteration appends exactly the host's records and makes its status update |
| DnsUpdate.BuildRecords | controllers/dnsupdate.go:62-170 | the host loop fails with the first host outside the zone, or returns every host's records, and makes a status update for each host reached |
| DnsUpdate.GslbDNSEndpoint | controllers/dnsupdate.go:39-170 | lookup errors propagate unchanged; otherwise the result and the status updates are those of the specification |
| DnsUpdate.ZoneMismatchRejectsPass | controllers/dnsupdate.go:62-67 | once the lookups succeed, the pass succeeds exactly when every host contains the zone; otherwise it reports the first offending host and returns no records |
| DnsUpdate.ZoneAnywhereInHostPasses | controllers/dnsupdate.go:65 | any host containing the zone anywhere passes the check |
| DnsUpdate.ZoneCheckIsNotSuffixCheck | controllers/dnsupdate.go:65 | `app.example.com.other.org` passes for `example.com` without ending in it |
| DnsUpdate.OtherZoneNoOccurrence | controllers/dnsupdate.go:65 | `example.com` occurs at no position of `app.other-zone.com` |
| DnsUpdate.OtherZoneNotContained | controllers/dnsupdate.go:65 | `app.other-zone.com` fails the check for `example.com` |
| DnsUpdate.OtherZoneFailsPass | controllers/dnsupdate.go:62-67 | a pass with the host `app.other-zone.com` under zone `example.com` ends in a zone mismatch with no records |
| DnsUpdate.HostEndpointsShape | controllers/dnsupdate.go:72-168 | a healthy host's block opens with the `localtargets-<host>` A and AAAA records holding exactly the local IPv4 and IPv6 lists (even if empty); then one labelled record per final IP; no per-IP record without final targets |
| DnsUpdate.UnhealthyHostHasNoLocalRecords | controllers/dnsupdate.go:72 | an unhealthy host yields only records named after the host itself |
| DnsUpdate.LastRecordOnly | controllers/dnsupdate.go:140-168 | the per-IP block read as written, with one record variable; `LastRecordOnlyDropsTargets` is about this definition |
| DnsUpdate.LastRecordOnlyDropsTargets | controllers/dnsupdate.go:140-168 | if only the last record were labelled and appended, a host with two different final IPs would lose its first IP, which `HostRecords` publishes |
| DnsUpdate.PrefixRecords | controllers/dnsupdate.go:140 | the records of a prefix of the IPs are the same prefix of the records |
| Validation.DistinctIffSetSize | controllers/depresolver/depresolver_validator.go:149-153 | a list has no duplicate exactly when its element set is as large as the list |
| Validation.RegexpOutcome | controllers/depresolver/depresolver_validator.go:67-79 | on an error-free validator, `matchRegexp` passes exactly when the value is empty or matches; otherwise it reports value and pattern |
| Validation.RegexpsOutcome | controllers/depresolver/depresolver_validator.go:81-93 | the outcome of the `matchRegexps` loop; `RegexpsOutcomeClosedForm` and `MatchRegexpsStopsAtFirstMatch` are about this definition |
| Validation.RegexpsOutcomeClosedForm | controllers/depresolver/depresolver_validator.go:81-93 | `matchRegexps` passes exactly when the list is empty, the value is empty or some pattern matches; otherwise the error is the last pattern's |
| Validation.MatchRegexpsStopsAtFirstMatch | controllers/depresolver/depresolver_validator.go:86-91 | once a pattern matches, later patterns are never tried |
| Validation.Verdict | controllers/depresolver/depresolver_validator.go:57-157 | each check fails exactly under its condition: empty value, equal to the forbidden value, ≤ 0, < 0, > limit, no items, a duplicate item |
| Validation.Next | controllers/depresolver/depresolver_validator.go:57-157 | one check of a chain: an existing error is kept, else the check's `Verdict`; every `Validator` method and `ChainSticky` are about this definition |
| Validation.Chain | controllers/depresolver/depresolver_validator.go:57-157 | a chain of checks; `ChainSticky` and `ChainReportsFirstFailure` are about this definition |
| Validation.ChainSticky | controllers/depresolver/depresolver_validator.go:57-157 | no check clears an error: a chain started with an error ends with it |
| Validation.ChainReportsFirstFailure | controllers/depresolver/depresolver_validator.go:57-157 | a chain on an error-free validator passes exactly when every check passes, and otherwise reports its first failing check |
| Validation.RemoveSpaces | controllers/depresolver/depresolver_validator.go:160 | the result has no space, and it is empty exactly when the input is all spaces |
| Validation.RemoveSpacesKeepsCharacters | controllers/depresolver/depresolver_validator.go:160 | every non-space character is kept as often as it occurs, and every space is removed (`multiset(r) == multiset(s)[' ' := 0]`) |
| Validation.RemoveSpacesConcat | controllers/depresolver/depresolver_validator.go:160 | the kept characters stay in their order: removing spaces from `a + b` gives the result for `a` followed by the result for `b` |
| Validation.IsNotEmpty | controllers/depresolver/depresolver_validator.go:159-161 | true exactly when the string holds a character other than a space |
| Validation.Validator.Field | controllers/depresolver/depresolver_validator.go:32-55 | ints of every width go to `intValue`, a string to `strValue`, a string list to `strArr`, the rest stays at Go zero values; any other type sets the error |
| Validation.Validator.IsNotEmpty | controllers/depresolver/depresolver_validator.go:57-65 | keeps an existing error, else fails exactly on an empty value; returns the receiver |
| Validation.Validator.MatchRegexp | controllers/depresolver/depresolver_validator.go:67-79 | keeps an existing error, else reports `RegexpOutcome`; returns the receiver |
| Validation.Validator.MatchRegexps | controllers/depresolver/depresolver_validator.go:81-93 | keeps an existing error, else the loop that clears and retries ends with `RegexpsOutcome`; returns the receiver |
| Validation.Validator.IsHigherThanZero | controllers/depresolver/depresolver_validator.go:95-103 | keeps an existing error, else fails exactly when `intValue <= 0` |
| Validation.Validator.IsHigherOrEqualToZero | controllers/depresolver/depresolver_validator.go:105-113 | keeps an existing error, else fails exactly when `intValue < 0` |
| Validation.Validator.IsLessOrEqualTo | controllers/depresolver/depresolver_validator.go:115-123 | keeps an existing error, else fails exactly when `intValue > num` |
| Validation.Validator.IsNotEqualTo | controllers/depresolver/depresolver_validator.go:125-133 | keeps an existing error, else fails exactly when the value equals the given one |
| Validation.Validator.HasItems | controllers/depresolver/depresolver_validator.go:135-143 | keeps an existing error, else fails exactly on an empty list |
| Validation.Validator.HasUniqueItems | controllers/depresolver/depresolver_validator.go:145-157 | keeps an existing error, else the map built over the items is smaller than the list exactly when the list has a duplicate |

## Left out

- Tracing spans and `log.Info()` calls (controllers/dnsupdate.go:37-38, 107-137): observability only; they never change control flow.
- Foreign lookups: the health lookup, the exposed-IP lookup and `GetExternalTargets` are inputs, including their error results. Error texts are reduced to a reason string.
- `externalTargets.Sort()` (controllers/dnsupdate.go:94): the external targets are taken to be already in their final order.
- `assistant.Targets` is not part of this model. It is modelled as a sequence of (tag, IPs) entries with unique tags, kept in insertion order, and `GetIPs` reads the entries in that order. Go iterates the map in no fixed order, so the order of `GetIPs`, and hence of the per-IP records, is a modelling choice. With unique tags, neither the label map (`Labels.WeightLabelsDependOnLookupOnly`) nor the set of IPs that get a record (`Targets.GetIPsDependOnLookupOnly`) depends on it.
- Iteration over the health map (controllers/dnsupdate.go:62) follows the order of the `serviceHealth` sequence. In Go the order is unspecified, so which host is named in a zone-mismatch error, and how many status updates precede it, depend on that order. Iteration over the weight map (controllers/dnsupdate.go:206) is nondeterministic in the model (`:|`), and the result is proved independent of it.
- Addresses.IsIPv4: a plain dotted-quad test. It does not accept IPv4-mapped IPv6 literals such as `::ffff:1.2.3.4`, for which Go's `To4()` is non-nil, so the model publishes those as AAAA where Go publishes A. Other details of Go's IP parser are not modelled either; every literal that is not a dotted quad is treated as AAAA, as an unparsable one is in Go.
- Kubernetes wrapping (`DNSEndpoint` metadata and annotations) and `SetControllerReference` with its error path (controllers/dnsupdate.go:171-189): framework plumbing. The model returns the endpoint list.
- Metrics side effects of `m.Update*` (controllers/dnsupdate.go:195-199): only the choice of reporter and its arguments is modelled.
- The strategy constants, the health status values and the `DNSProvider` and `assistant.Targets` types are defined in files that are not part of this model. The values used are the k8gb ones.
- The regular-expression engine and the concrete patterns (controllers/depresolver/depresolver_validator.go:10-19): matching is the parameter `matches(pattern, value)`. A pattern that fails to compile makes `r.Match` panic in Go; that case is not modelled.
- Error message texts of the validator: the model keeps a `Failure` tag with the data the message reports.
- Go's `int` is 64 bits wide. `intValue` and the limit of `isLessOrEqualTo` are unbounded integers here. The narrower widths given to `field` are ranges (`Int8` … `Int64`), and they widen without loss, as in Go.
- Slice aliasing: `field` stores the caller's `[]string` by reference, and the local A/AAAA lists are shared by the `localtargets` records and the final targets. The model has sequences as values, and none of the modelled code mutates those slices.

## Findings

| source | as written | input that shows it | evidently intended | confidence | as-written member | corrected member |
|---|---|---|---|---|---|---|
| controllers/dnsupdate.go:140-168 | `dnsRecord` is declared inside the `if`/`else` branches at 143 and 153 but used after them at 166-168. That is out of scope, so the text does not compile. Read with one record variable that outlives the loop, only the last IP's record gets the weight labels and is appended. | a host whose final targets are `["10.0.0.1", "10.0.0.2"]`: only the record of `10.0.0.2` would be published | every per-IP record gets the `strategy` and weight labels and is appended | not executed; follows from Go's block scoping | DnsUpdate.LastRecordOnlyDropsTargets | DnsUpdate.HostRecordsShape |
